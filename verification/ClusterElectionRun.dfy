/** Elections across the cluster. The slot-serving masters are fixed and known to all, nodes do not
    crash, and any message may be lost or late. A vote that arrives while the slave has scheduled a new
    attempt and not yet asked for it is counted for the next attempt, as the code does; the history
    `late` counts those votes. The others are the votes of distinct masters in the attempt's epoch, so
    two nodes whose other votes reach the quorum in one epoch are one node. */
module ClusterElectionRun {
  import opened Options
  import opened ClusterSlots
  import opened ClusterElection
  import opened Sets

  datatype Ballot = Ballot(voter: Name, epoch: nat, to: Name)

  /** Every node's state, the requests ever broadcast, the votes on their way, and three histories: the
      votes given, whose votes each node has counted since it asked in its current attempt, and how many
      it had counted between scheduling the attempt and asking. */
  datatype System = System(
    servers: map<Name, Server>, requests: set<Request>, acks: set<Ack>,
    ballots: set<Ballot>, counted: map<Name, set<Name>>, late: map<Name, nat>)

  datatype Event =
    | Look(n: Name, e: Surroundings, cron: bool)                   // clusterHandleSlaveFailover
    | Command(n: Name, now: int, force: bool)                      // CLUSTER FAILOVER
    | Ask(n: Name, r: Request, now: int, nodeTimeout: nat)         // a request reaches n
    | Deliver(a: Ack)
    | Lose(a: Ack)
    | Other(n: Name, s: Server)                                   // anything else n does or hears

  /** The node may vote only as one of the fixed masters, and knows how many there are. */
  ghost predicate KnowsMasters(s: Server, me: Name, masters: set<Name>) {
    && ServerOK(s, me)
    && (s.nodes[me].isMaster && s.nodes[me].numslots != 0 ==> me in masters)
    && s.size == |masters|
  }

  ghost predicate Shape(y: System, masters: set<Name>) {
    && y.counted.Keys == y.servers.Keys && y.late.Keys == y.servers.Keys
    && (forall n :: n in y.servers ==> KnowsMasters(y.servers[n], n, masters))
    && (forall n, m :: n in y.servers && m in y.servers ==> m in y.servers[n].nodes)
    && (forall r :: r in y.requests ==> r.from in y.servers && |r.slots| == SLOTS / 8)
    && (forall a :: a in y.acks ==> a.from in y.servers && a.to in y.servers)
  }

  /** Whatever else a node does leaves its election fields alone, and never lowers its currentEpoch. */
  ghost predicate LeavesElection(s: Server, t: Server) {
    && t.currentEpoch >= s.currentEpoch && t.lastVoteEpoch == s.lastVoteEpoch
    && t.authCount == s.authCount && t.authSent == s.authSent && t.authEpoch == s.authEpoch
    && s.nodes.Keys <= t.nodes.Keys
  }

  /** And the times it remembers: only an attempt sets `failover_auth_time`, only a vote `voted_time`. */
  ghost predicate LeavesTimes(s: Server, t: Server) {
    && t.authTime == s.authTime
    && forall m :: m in s.nodes && m in t.nodes ==> t.nodes[m].votedTime == s.nodes[m].votedTime
  }

  ghost predicate Allowed(y: System, e: Event, masters: set<Name>)
    requires Shape(y, masters)
  {
    match e
    case Look(n, _, _) => n in y.servers
    case Command(n, _, _) => n in y.servers
    case Ask(n, r, _, _) => n in y.servers && r in y.requests
    case Deliver(a) => a in y.acks
    case Lose(a) => a in y.acks
    case Other(n, s) =>
      n in y.servers && LeavesElection(y.servers[n], s) && LeavesTimes(y.servers[n], s) && KnowsMasters(s, n, masters)
  }

  ghost function Heard(s: Server, r: Request): Server
    requires r.from in s.nodes
  {
    Header(s, r.from, r.currentEpoch, r.configEpoch)
  }

  lemma HeardOK(s: Server, me: Name, from: Name, currentEpoch: nat, configEpoch: nat)
    requires ServerOK(s, me) && from in s.nodes
    ensures ServerOK(Header(s, from, currentEpoch, configEpoch), me)
  {
  }

  ghost function LookStep(y: System, n: Name, e: Surroundings, cron: bool): System
    requires n in y.servers && n in y.counted && n in y.late && ServerOK(y.servers[n], n)
  {
    TurnFacts(y.servers[n], n, e, cron);
    hide Turn;
    var (s, o) := Turn(y.servers[n], n, e, cron);
    y.(servers := y.servers[n := s],
       requests := if o == Requested then y.requests + {RequestOf(s, n)} else y.requests,
       counted := if o == Scheduled then y.counted[n := {}] else y.counted,
       late := if o == Scheduled then y.late[n := 0] else y.late)
  }

  ghost function AskStep(y: System, n: Name, r: Request, now: int, nodeTimeout: nat): System
    requires n in y.servers && ServerOK(y.servers[n], n) && r.from in y.servers[n].nodes && |r.slots| == SLOTS / 8
  {
    HeardOK(y.servers[n], n, r.from, r.currentEpoch, r.configEpoch);
    var (s, ack) := Vote(Heard(y.servers[n], r), n, r, now, nodeTimeout);
    y.(servers := y.servers[n := s],
       acks := if ack.Some? then y.acks + {ack.value} else y.acks,
       ballots := if ack.Some? then y.ballots + {Ballot(n, ack.value.currentEpoch, r.from)} else y.ballots)
  }

  ghost function DeliverStep(y: System, a: Ack): System
    requires a.to in y.servers && a.to in y.counted && a.to in y.late && a.from in y.servers[a.to].nodes
  {
    var h := Header(y.servers[a.to], a.from, a.currentEpoch, a.configEpoch);
    var s := CountAck(h, a);
    var more := s.authCount > h.authCount;
    y.(servers := y.servers[a.to := s], acks := y.acks - {a},
       counted := if more && h.authSent then y.counted[a.to := y.counted[a.to] + {a.from}] else y.counted,
       late := if more && !h.authSent then y.late[a.to := y.late[a.to] + 1] else y.late)
  }

  ghost function Do(y: System, e: Event, masters: set<Name>): System
    requires Shape(y, masters) && Allowed(y, e, masters)
  {
    match e
    case Look(n, e, cron) => LookStep(y, n, e, cron)
    case Command(n, now, force) => y.(servers := y.servers[n := StartManual(y.servers[n], now, force)])
    case Ask(n, r, now, nodeTimeout) => AskStep(y, n, r, now, nodeTimeout)
    case Deliver(a) => DeliverStep(y, a)
    case Lose(a) => y.(acks := y.acks - {a})
    case Other(n, s) => y.(servers := y.servers[n := s])
  }

  // ---- The invariant ----

  /** One vote per master and epoch: votes are at most as new as the last vote remembered. */
  ghost predicate BallotsOK(y: System, masters: set<Name>) {
    && (forall b :: b in y.ballots ==>
          b.voter in masters && b.voter in y.servers && b.epoch <= y.servers[b.voter].lastVoteEpoch)
    && (forall b, c :: b in y.ballots && c in y.ballots && b.voter == c.voter && b.epoch == c.epoch ==> b.to == c.to)
    && (forall b :: b in y.ballots ==> b.to in y.servers && b.epoch <= y.servers[b.to].authEpoch)
  }

  ghost predicate ServersOK(y: System) {
    forall n :: n in y.servers ==>
      y.servers[n].lastVoteEpoch <= y.servers[n].currentEpoch && y.servers[n].authEpoch <= y.servers[n].currentEpoch
  }

  /** A vote on its way was given, and is the only message of that vote. */
  ghost predicate AcksOK(y: System) {
    && (forall a :: a in y.acks ==> Ballot(a.from, a.currentEpoch, a.to) in y.ballots)
    && (forall a, b :: a in y.acks && b in y.acks && a.from == b.from && a.currentEpoch == b.currentEpoch ==> a == b)
  }

  ghost predicate RequestsOK(y: System) {
    forall r :: r in y.requests ==> r.from in y.servers && r.currentEpoch <= y.servers[r.from].authEpoch
  }

  /** The count is the number of distinct masters whose votes for this epoch have arrived since the node
      asked, and the late votes. */
  ghost predicate CountOK(y: System, n: Name)
    requires n in y.servers && n in y.counted && n in y.late
  {
    var s := y.servers[n];
    && s.authCount == |y.counted[n]| + y.late[n]
    && (!s.authSent ==> y.counted[n] == {})
    && (forall v :: v in y.counted[n] ==> Ballot(v, s.authEpoch, n) in y.ballots)
    && (forall a :: a in y.acks && a.to == n && a.currentEpoch == s.authEpoch ==> a.from !in y.counted[n])
  }

  ghost predicate Inv(y: System, masters: set<Name>) {
    && Shape(y, masters)
    && BallotsOK(y, masters) && ServersOK(y) && AcksOK(y) && RequestsOK(y)
    && forall n :: n in y.servers ==> CountOK(y, n)
  }

  /** Any start at which no election has been asked for. */
  ghost predicate Start(y: System, masters: set<Name>) {
    && Shape(y, masters) && y.requests == {} && y.acks == {} && y.ballots == {}
    && (forall n :: n in y.servers ==>
          y.counted[n] == {} && y.late[n] == 0 && y.servers[n].authCount == 0 && !y.servers[n].authSent &&
          y.servers[n].lastVoteEpoch <= y.servers[n].currentEpoch && y.servers[n].authEpoch <= y.servers[n].currentEpoch)
  }

  lemma StartInv(y: System, masters: set<Name>)
    requires Start(y, masters)
    ensures Inv(y, masters)
  {
    hide KnowsMasters;
  }

  // ---- What each event does to one node ----

  /** The parts of a node no election event changes. */
  ghost predicate SameRole(s: Server, t: Server, me: Name) {
    && me in s.nodes && t.nodes.Keys == s.nodes.Keys && t.size == s.size
    && t.nodes[me].isMaster == s.nodes[me].isMaster && t.nodes[me].numslots == s.nodes[me].numslots
  }

  /** The election fields are as before. */
  ghost predicate Keeps(s: Server, t: Server) {
    && t.lastVoteEpoch == s.lastVoteEpoch && t.authCount == s.authCount && t.authSent == s.authSent
    && t.currentEpoch == s.currentEpoch && t.authEpoch == s.authEpoch
  }

  ghost predicate AskedNow(s: Server, t: Server) {
    && t.lastVoteEpoch == s.lastVoteEpoch && t.authCount == s.authCount && !s.authSent && t.authSent
    && t.currentEpoch == s.currentEpoch + 1 && t.authEpoch == t.currentEpoch
  }

  ghost predicate ScheduledNow(s: Server, t: Server) {
    && t.lastVoteEpoch == s.lastVoteEpoch && t.authCount == 0 && !t.authSent
    && t.currentEpoch == s.currentEpoch && t.authEpoch == s.authEpoch
  }

  ghost predicate Looked(s: Server, t: Server, o: Outcome) {
    if o == Requested then AskedNow(s, t) else if o == Scheduled then ScheduledNow(s, t) else Keeps(s, t)
  }

  lemma PartFacts(s: Server, me: Name, e: Surroundings)
    requires ServerOK(s, me)
    ensures ServerOK(Rerank(s, e), me) && SameRole(s, Rerank(s, e), me) && Keeps(s, Rerank(s, e))
    ensures ServerOK(Schedule(s, e), me) && SameRole(s, Schedule(s, e), me) && ScheduledNow(s, Schedule(s, e))
    ensures SameRole(s, s, me) && Keeps(s, s)
  {
    SameNodes(s, Rerank(s, e), me);
    SameNodes(s, Schedule(s, e), me);
    SameNodes(s, s, me);
    hide ServerOK;
    hide SameRole;
  }

  lemma AttemptFacts(s: Server, me: Name, e: Surroundings, age: int, timeout: int)
    requires ServerOK(s, me)
    ensures var (t, o) := AttemptStep(s, me, e, age, timeout);
      ServerOK(t, me) && SameRole(s, t, me) && Looked(s, t, o)
  {
    var r := Rerank(s, e);
    PartFacts(s, me, e);
    AskFacts(s, r, me);
    TakeEpochFacts(s, r, me);
    hide ServerOK;
    hide SameRole;
    hide AskForVotes;
    hide TakeEpoch;
    hide Rerank;
    hide Keeps;
    hide AskedNow;
    hide ScheduledNow;
  }

  lemma AskFacts(s: Server, r: Server, me: Name)
    requires ServerOK(r, me) && SameRole(s, r, me) && Keeps(s, r)
    ensures ServerOK(AskForVotes(r), me) && SameRole(s, AskForVotes(r), me)
    ensures !r.authSent ==> AskedNow(s, AskForVotes(r))
  {
    SameNodes(r, AskForVotes(r), me);
    SameRoleTrans(s, r, AskForVotes(r), me);
    hide ServerOK;
    hide SameRole;
  }

  lemma TakeEpochFacts(s: Server, r: Server, me: Name)
    requires ServerOK(r, me) && SameRole(s, r, me) && Keeps(s, r)
    ensures ServerOK(TakeEpoch(r, me), me) && SameRole(s, TakeEpoch(r, me), me) && Keeps(s, TakeEpoch(r, me))
  {
    TakeEpochOK(r, me);
    SameRoleTrans(s, r, TakeEpoch(r, me), me);
    hide ServerOK;
    hide SameRole;
    hide TakeEpoch;
  }

  lemma SameRoleTrans(s: Server, t: Server, u: Server, me: Name)
    requires SameRole(s, t, me) && SameRole(t, u, me)
    ensures SameRole(s, u, me)
  {
  }

  lemma LookFacts(s: Server, me: Name, e: Surroundings)
    requires ServerOK(s, me)
    ensures var (t, o) := HandleFailover(s, me, e);
      ServerOK(t, me) && SameRole(s, t, me) && Looked(s, t, o)
  {
    hide *;
    SlaveKnown(s, me);
    AttemptFacts(s, me, e, e.now - s.authTime, AuthTimeout(e));
    PartFacts(s, me, e);
    ScheduleLooked(s, Schedule(s, e));
    KeepsIdle(s, s);
    HandleIs(s, me, e);
  }

  lemma ScheduleLooked(s: Server, t: Server)
    requires ScheduledNow(s, t)
    ensures Looked(s, t, Scheduled)
  {
  }

  lemma KeepsIdle(s: Server, t: Server)
    requires Keeps(s, t)
    ensures Looked(s, t, Idle) && Looked(s, t, DataTooOld)
  {
  }

  lemma HandleIs(s: Server, me: Name, e: Surroundings)
    requires me in s.nodes && (s.nodes[me].slaveof.Some? ==> s.nodes[me].slaveof.value in s.nodes)
    ensures HandleFailover(s, me, e) in
            {(s, Idle), (s, DataTooOld), (Schedule(s, e), Scheduled),
             AttemptStep(s, me, e, e.now - s.authTime, AuthTimeout(e))}
  {
    hide AttemptStep;
    hide Schedule;
    hide TooOld;
    hide MayFailover;
    hide AuthTimeout;
  }

  /** What precedes the handler in the cron leaves the election alone. */
  lemma ManualFacts(s: Server, me: Name, now: int, offset: int, force: bool)
    requires ServerOK(s, me)
    ensures ServerOK(CheckTimeout(s, now), me) && SameRole(s, CheckTimeout(s, now), me) && Keeps(s, CheckTimeout(s, now))
    ensures ServerOK(HandleManual(s, offset), me) && SameRole(s, HandleManual(s, offset), me)
    ensures Keeps(s, HandleManual(s, offset))
    ensures ServerOK(StartManual(s, now, force), me) && SameRole(s, StartManual(s, now, force), me)
    ensures Keeps(s, StartManual(s, now, force))
  {
    SameNodes(s, CheckTimeout(s, now), me);
    SameNodes(s, HandleManual(s, offset), me);
    SameNodes(s, StartManual(s, now, force), me);
    hide ServerOK;
    hide SameRole;
  }

  lemma KeepsLooked(s: Server, t: Server, u: Server, o: Outcome)
    requires Keeps(s, t) && Looked(t, u, o)
    ensures Looked(s, u, o)
  {
  }

  lemma TurnFacts(s: Server, me: Name, e: Surroundings, cron: bool)
    requires ServerOK(s, me)
    ensures var (t, o) := Turn(s, me, e, cron);
      ServerOK(t, me) && SameRole(s, t, me) && Looked(s, t, o)
  {
    hide *;
    SlaveKnown(s, me);
    if cron {
      var t := CheckTimeout(s, e.now);
      ManualFacts(s, me, e.now, e.offset, false);
      ManualFacts(t, me, e.now, e.offset, false);
      SlaveKnown(t, me);
      var u := HandleManual(t, e.offset);
      SlaveKnown(u, me);
      LookFacts(u, me, e);
      SameRoleTrans(s, t, u, me);
      KeepsTrans(s, t, u);
      var (v, o) := HandleFailover(u, me, e);
      SameRoleTrans(s, u, v, me);
      KeepsLooked(s, u, v, o);
      CronIs(s, me, e, t);
      KeepsIdle(s, t);
    } else {
      LookFacts(s, me, e);
      CronIs(s, me, e, CheckTimeout(s, e.now));
    }
  }

  lemma KeepsTrans(s: Server, t: Server, u: Server)
    requires Keeps(s, t) && Keeps(t, u)
    ensures Keeps(s, u)
  {
  }

  lemma CronIs(s: Server, me: Name, e: Surroundings, t: Server)
    requires me in s.nodes && (s.nodes[me].slaveof.Some? ==> s.nodes[me].slaveof.value in s.nodes)
    requires t == CheckTimeout(s, e.now)
    ensures t.nodes == s.nodes == HandleManual(t, e.offset).nodes
    ensures Turn(s, me, e, false) == HandleFailover(s, me, e)
    ensures Turn(s, me, e, true) ==
            if t.nodes[me].isMaster then (t, Idle) else HandleFailover(HandleManual(t, e.offset), me, e)
  {
    hide HandleFailover;
  }

  lemma SlaveKnown(s: Server, me: Name)
    requires ServerOK(s, me)
    ensures me in s.nodes && (s.nodes[me].slaveof.Some? ==> s.nodes[me].slaveof.value in s.nodes)
  {
  }

  lemma SameNodes(s: Server, t: Server, me: Name)
    requires ServerOK(s, me) && t.nodes == s.nodes && t.slots == s.slots && t.size == s.size
    ensures ServerOK(t, me) && SameRole(s, t, me)
  {
  }

  /** Another epoch for one node. */
  lemma EpochOK(s: Server, t: Server, me: Name, n: Name, e: nat)
    requires ServerOK(s, me) && n in s.nodes && t.slots == s.slots && t.size == s.size
    requires t.nodes == s.nodes[n := s.nodes[n].(configEpoch := e)]
    ensures ServerOK(t, me) && SameRole(s, t, me)
  {
  }

  lemma TakeEpochOK(s: Server, me: Name)
    requires ServerOK(s, me)
    ensures ServerOK(TakeEpoch(s, me), me) && SameRole(s, TakeEpoch(s, me), me)
    ensures TakeEpoch(s, me) == s.(nodes := TakeEpoch(s, me).nodes)
  {
    SlaveKnown(s, me);
    SameNodes(s, s, me);
    hide ServerOK;
    hide SameRole;
    if s.nodes[me].configEpoch < s.authEpoch {
      EpochOK(s, TakeEpoch(s, me), me, me, s.authEpoch);
    }
  }

  lemma CountFacts(s: Server, me: Name, a: Ack)
    requires ServerOK(s, me) && a.from in s.nodes
    ensures var t := CountAck(s, a);
      && ServerOK(t, me) && SameRole(s, t, me) && t == s.(authCount := t.authCount)
      && (t.authCount == s.authCount || (t.authCount == s.authCount + 1 && a.currentEpoch >= s.authEpoch))
  {
    SameNodes(s, CountAck(s, a), me);
    hide ServerOK;
  }

  lemma HeaderFacts(s: Server, me: Name, from: Name, currentEpoch: nat, configEpoch: nat)
    requires ServerOK(s, me) && from in s.nodes
    ensures var t := Header(s, from, currentEpoch, configEpoch);
      && ServerOK(t, me) && SameRole(s, t, me) && t.currentEpoch >= s.currentEpoch
      && t == s.(currentEpoch := t.currentEpoch, nodes := t.nodes)
  {
    var t := Header(s, from, currentEpoch, configEpoch);
    hide ServerOK;
    hide SameRole;
    if configEpoch > s.nodes[from].configEpoch {
      EpochOK(s, t, me, from, configEpoch);
    } else {
      SameNodes(s, t, me);
    }
  }

  lemma VotedFacts(s: Server, master: Name, me: Name, now: int)
    requires ServerOK(s, me) && master in s.nodes
    ensures ServerOK(Voted(s, master, now), me) && SameRole(s, Voted(s, master, now), me)
  {
  }

  lemma GrantFacts(s: Server, me: Name, r: Request, now: int, nodeTimeout: nat)
    requires ServerOK(s, me) && r.from in s.nodes && |r.slots| == SLOTS / 8
    requires Grants(s, me, r, now, nodeTimeout)
    ensures s.nodes[me].isMaster && s.nodes[me].numslots != 0
    ensures r.currentEpoch >= s.currentEpoch && s.lastVoteEpoch != s.currentEpoch
    ensures s.nodes[r.from].slaveof.Some? && s.nodes[r.from].slaveof.value in s.nodes
  {
    hide OutdatedSlot;
    hide TestBit;
  }

  lemma VoteFacts(s: Server, me: Name, r: Request, now: int, nodeTimeout: nat)
    requires ServerOK(s, me) && r.from in s.nodes && |r.slots| == SLOTS / 8
    ensures ServerOK(Heard(s, r), me)
    ensures var (t, ack) := Vote(Heard(s, r), me, r, now, nodeTimeout);
      && ServerOK(t, me) && SameRole(s, t, me)
      && t.authCount == s.authCount && t.authSent == s.authSent && t.authEpoch == s.authEpoch
      && t.currentEpoch >= s.currentEpoch
      && match ack
         case None => t.lastVoteEpoch == s.lastVoteEpoch
         case Some(a) =>
           && s.nodes[me].isMaster && s.nodes[me].numslots != 0
           && a.from == me && a.to == r.from && a.currentEpoch == r.currentEpoch == t.currentEpoch
           && t.lastVoteEpoch == t.currentEpoch && s.lastVoteEpoch != t.currentEpoch
  {
    HeaderFacts(s, me, r.from, r.currentEpoch, r.configEpoch);
    var h := Heard(s, r);
    HeardEpoch(s, r);
    if Grants(h, me, r, now, nodeTimeout) {
      GrantFacts(h, me, r, now, nodeTimeout);
      VotedFacts(h, h.nodes[r.from].slaveof.value, me, now);
    }
    hide ServerOK;
    hide Grants;
    hide Heard;
    hide Header;
  }

  lemma HeardEpoch(s: Server, r: Request)
    requires r.from in s.nodes
    ensures Heard(s, r) == Header(s, r.from, r.currentEpoch, r.configEpoch)
    ensures Heard(s, r).currentEpoch >= r.currentEpoch
  {
  }

  lemma DeliverFacts(s: Server, me: Name, a: Ack)
    requires ServerOK(s, me) && a.from in s.nodes
    ensures var h := Header(s, a.from, a.currentEpoch, a.configEpoch);
            var t := CountAck(h, a);
      && ServerOK(t, me) && SameRole(s, t, me) && h.authCount == s.authCount
      && t.lastVoteEpoch == s.lastVoteEpoch && t.currentEpoch >= s.currentEpoch
      && t.authSent == s.authSent && t.authEpoch == s.authEpoch
      && (t.authCount == s.authCount || (t.authCount == s.authCount + 1 && a.currentEpoch >= s.authEpoch))
  {
    HeaderFacts(s, me, a.from, a.currentEpoch, a.configEpoch);
    CountFacts(Header(s, a.from, a.currentEpoch, a.configEpoch), me, a);
    hide ServerOK;
    hide Header;
    hide CountAck;
  }

  lemma SameRoleKnows(s: Server, t: Server, me: Name, masters: set<Name>)
    requires KnowsMasters(s, me, masters) && SameRole(s, t, me) && ServerOK(t, me)
    ensures KnowsMasters(t, me, masters)
  {
  }

  // ---- Every event keeps the invariant ----

  /** Node `n` changes to `s` and keeps its role; the messages are those of known nodes. */
  lemma ShapeKept(y: System, z: System, n: Name, s: Server, masters: set<Name>)
    requires Shape(y, masters) && n in y.servers && KnowsMasters(s, n, masters) && y.servers[n].nodes.Keys <= s.nodes.Keys
    requires z.servers == y.servers[n := s] && z.counted.Keys == y.counted.Keys && z.late.Keys == y.late.Keys
    requires forall r :: r in z.requests ==> r in y.requests || (r.from in y.servers && |r.slots| == SLOTS / 8)
    requires forall a :: a in z.acks ==> a in y.acks || (a.from in y.servers && a.to in y.servers)
    ensures Shape(z, masters)
  {
    hide KnowsMasters;
  }

  /** A change that gives no vote: old votes, no new messages of votes, epochs not lowered. */
  ghost predicate NoVote(y: System, z: System, n: Name) {
    && n in y.servers && n in z.servers && z.servers == y.servers[n := z.servers[n]]
    && z.ballots == y.ballots && z.acks <= y.acks
    && z.servers[n].lastVoteEpoch == y.servers[n].lastVoteEpoch
    && z.servers[n].currentEpoch >= y.servers[n].currentEpoch
    && z.servers[n].authEpoch >= y.servers[n].authEpoch
    && z.servers[n].authEpoch <= z.servers[n].currentEpoch
  }

  lemma NoVoteKeeps(y: System, z: System, n: Name, masters: set<Name>)
    requires BallotsOK(y, masters) && ServersOK(y) && AcksOK(y) && NoVote(y, z, n)
    ensures BallotsOK(z, masters) && ServersOK(z) && AcksOK(z)
  {
  }

  /** The counts of the nodes that did not change. */
  lemma OthersCount(y: System, z: System, n: Name, m: Name)
    requires m in y.servers && m in y.counted && m in y.late && m in z.servers && m in z.counted && m in z.late && m != n
    requires z.servers[m] == y.servers[m] && z.counted[m] == y.counted[m] && z.late[m] == y.late[m]
    requires z.acks <= y.acks && y.ballots <= z.ballots && CountOK(y, m)
    ensures CountOK(z, m)
  {
  }

  lemma InvParts(y: System, masters: set<Name>)
    requires Inv(y, masters)
    ensures Shape(y, masters) && BallotsOK(y, masters) && ServersOK(y) && AcksOK(y) && RequestsOK(y)
    ensures y.counted.Keys == y.late.Keys == y.servers.Keys
    ensures forall n :: n in y.servers ==> CountOK(y, n)
  {
  }

  lemma InvFrom(y: System, masters: set<Name>)
    requires Shape(y, masters) && BallotsOK(y, masters) && ServersOK(y) && AcksOK(y) && RequestsOK(y)
    requires y.counted.Keys == y.late.Keys == y.servers.Keys
    requires forall n :: n in y.servers ==> CountOK(y, n)
    ensures Inv(y, masters)
  {
  }

  lemma LookShape(y: System, n: Name, e: Surroundings, cron: bool, masters: set<Name>)
    requires Shape(y, masters) && n in y.servers && n in y.counted && n in y.late && KnowsMasters(y.servers[n], n, masters)
    requires ServerOK(y.servers[n], n) && y.counted.Keys == y.late.Keys == y.servers.Keys
    ensures Shape(LookStep(y, n, e, cron), masters)
    ensures LookStep(y, n, e, cron).servers.Keys == LookStep(y, n, e, cron).counted.Keys == LookStep(y, n, e, cron).late.Keys == y.servers.Keys
  {
    var s := Turn(y.servers[n], n, e, cron).0;
    hide *;
    TurnFacts(y.servers[n], n, e, cron);
    SameRoleKnows(y.servers[n], s, n, masters);
    SameRoleNodes(y.servers[n], s, n);
    LookChanges(y, n, e, cron);
    ShapeKept(y, LookStep(y, n, e, cron), n, s, masters);
  }

  lemma LookChanges(y: System, n: Name, e: Surroundings, cron: bool)
    requires n in y.servers && n in y.counted && n in y.late && ServerOK(y.servers[n], n) && y.counted.Keys == y.late.Keys == y.servers.Keys
    ensures var z := LookStep(y, n, e, cron);
      && z.servers == y.servers[n := Turn(y.servers[n], n, e, cron).0]
      && z.counted.Keys == z.late.Keys == y.servers.Keys == z.servers.Keys && z.acks == y.acks
      && forall r :: r in z.requests ==> r in y.requests || (r.from == n && |r.slots| == SLOTS / 8)
  {
    TurnFacts(y.servers[n], n, e, cron);
    RequestFacts(Turn(y.servers[n], n, e, cron).0, n);
    hide Turn;
    hide ServerOK;
    hide RequestOf;
  }

  lemma SameRoleNodes(s: Server, t: Server, me: Name)
    requires SameRole(s, t, me)
    ensures s.nodes.Keys == t.nodes.Keys
  {
  }

  lemma LookNoVote(y: System, n: Name, e: Surroundings, cron: bool)
    requires n in y.servers && n in y.counted && n in y.late && ServerOK(y.servers[n], n) && ServersOK(y)
    ensures NoVote(y, LookStep(y, n, e, cron), n)
  {
    TurnFacts(y.servers[n], n, e, cron);
    hide Turn;
    hide ServerOK;
    hide RequestOf;
  }

  lemma LookCount(y: System, n: Name, e: Surroundings, cron: bool, m: Name)
    requires n in y.servers && m in y.servers && y.counted.Keys == y.late.Keys == y.servers.Keys && ServerOK(y.servers[n], n)
    requires CountOK(y, m)
    ensures CountOK(LookStep(y, n, e, cron), m)
  {
    TurnFacts(y.servers[n], n, e, cron);
    hide Turn;
    hide ServerOK;
    hide RequestOf;
  }

  lemma LookRequests(y: System, n: Name, e: Surroundings, cron: bool)
    requires n in y.servers && n in y.counted && n in y.late && ServerOK(y.servers[n], n) && RequestsOK(y) && ServersOK(y)
    ensures RequestsOK(LookStep(y, n, e, cron))
  {
    TurnFacts(y.servers[n], n, e, cron);
    RequestFacts(Turn(y.servers[n], n, e, cron).0, n);
    hide Turn;
    hide ServerOK;
    hide RequestOf;
  }

  lemma KnowsOK(y: System, n: Name, masters: set<Name>)
    requires Shape(y, masters) && n in y.servers
    ensures ServerOK(y.servers[n], n) && KnowsMasters(y.servers[n], n, masters)
    ensures n in y.counted && y.counted.Keys == y.late.Keys == y.servers.Keys
  {
  }

  lemma LookInv(y: System, n: Name, e: Surroundings, cron: bool, masters: set<Name>)
    requires Inv(y, masters) && n in y.servers
    ensures n in y.counted && n in y.late && ServerOK(y.servers[n], n)
    ensures Inv(LookStep(y, n, e, cron), masters)
  {
    hide *;
    InvParts(y, masters);
    KnowsOK(y, n, masters);
    LookShape(y, n, e, cron, masters);
    LookNoVote(y, n, e, cron);
    LookRequests(y, n, e, cron);
    var z := LookStep(y, n, e, cron);
    NoVoteKeeps(y, z, n, masters);
    forall m | m in z.servers ensures CountOK(z, m) {
      LookCount(y, n, e, cron, m);
    }
    InvFrom(z, masters);
  }

  lemma RequestFacts(s: Server, me: Name)
    requires ServerOK(s, me)
    ensures RequestOf(s, me).from == me && RequestOf(s, me).currentEpoch == s.currentEpoch
    ensures |RequestOf(s, me).slots| == SLOTS / 8
  {
  }

  // -- Ask --

  /** A request that got the vote of `n`, which becomes `s`. */
  ghost predicate Granted(y: System, z: System, n: Name, s: Server, r: Request, a: Ack) {
    && n in y.servers && z.servers == y.servers[n := s] && r in y.requests
    && a.from == n && a.to == r.from && a.currentEpoch == r.currentEpoch == s.currentEpoch
    && s.lastVoteEpoch == s.currentEpoch && y.servers[n].lastVoteEpoch != s.currentEpoch
    && s.currentEpoch >= y.servers[n].currentEpoch
    && s.authCount == y.servers[n].authCount && s.authSent == y.servers[n].authSent
    && s.authEpoch == y.servers[n].authEpoch
    && z.acks == y.acks + {a} && z.ballots == y.ballots + {Ballot(n, a.currentEpoch, a.to)}
    && z.requests == y.requests && z.counted == y.counted && z.late == y.late
  }

  lemma GrantedOnce(y: System, z: System, n: Name, s: Server, r: Request, a: Ack, masters: set<Name>)
    requires BallotsOK(y, masters) && ServersOK(y) && RequestsOK(y) && n in masters
    requires Granted(y, z, n, s, r, a)
    ensures BallotsOK(z, masters)
  {
    assert y.servers[n].lastVoteEpoch < s.currentEpoch;
  }

  lemma GrantedAcks(y: System, z: System, n: Name, s: Server, r: Request, a: Ack, masters: set<Name>)
    requires BallotsOK(y, masters) && ServersOK(y) && AcksOK(y) && Granted(y, z, n, s, r, a)
    ensures AcksOK(z)
  {
    assert y.servers[n].lastVoteEpoch < s.currentEpoch;
  }

  lemma GrantedServers(y: System, z: System, n: Name, s: Server, r: Request, a: Ack)
    requires ServersOK(y) && RequestsOK(y) && Granted(y, z, n, s, r, a)
    ensures ServersOK(z) && RequestsOK(z)
  {
  }

  lemma GrantedBallots(y: System, z: System, n: Name, s: Server, r: Request, a: Ack, masters: set<Name>)
    requires BallotsOK(y, masters) && ServersOK(y) && AcksOK(y) && RequestsOK(y) && n in masters
    requires Granted(y, z, n, s, r, a)
    ensures BallotsOK(z, masters) && ServersOK(z) && AcksOK(z) && RequestsOK(z)
  {
    hide *;
    GrantedOnce(y, z, n, s, r, a, masters);
    GrantedAcks(y, z, n, s, r, a, masters);
    GrantedServers(y, z, n, s, r, a);
  }

  lemma GrantedCount(y: System, z: System, n: Name, s: Server, r: Request, a: Ack, masters: set<Name>, m: Name)
    requires BallotsOK(y, masters) && ServersOK(y) && Granted(y, z, n, s, r, a)
    requires m in y.servers && m in y.counted && m in y.late && CountOK(y, m)
    ensures CountOK(z, m)
  {
    assert y.servers[n].lastVoteEpoch < s.currentEpoch;
    assert forall v :: v in y.counted[m] ==> Ballot(v, y.servers[m].authEpoch, m) in y.ballots;
  }

  lemma AskChanges(y: System, n: Name, r: Request, now: int, nodeTimeout: nat)
    requires n in y.servers && ServerOK(y.servers[n], n) && r.from in y.servers[n].nodes && |r.slots| == SLOTS / 8
    requires r in y.requests && ServersOK(y)
    ensures ServerOK(Heard(y.servers[n], r), n) && r.from in Heard(y.servers[n], r).nodes
    ensures var (s, ack) := Vote(Heard(y.servers[n], r), n, r, now, nodeTimeout);
            var z := AskStep(y, n, r, now, nodeTimeout);
      && SameRole(y.servers[n], s, n) && ServerOK(s, n)
      && z.servers == y.servers[n := s] && z.counted == y.counted && z.late == y.late && z.requests == y.requests
      && match ack
         case Some(a) =>
           Granted(y, z, n, s, r, a) && y.servers[n].nodes[n].isMaster && y.servers[n].nodes[n].numslots != 0
         case None =>
           NoVote(y, z, n) && z.acks == y.acks && s.authEpoch == y.servers[n].authEpoch &&
           s.authCount == y.servers[n].authCount && s.authSent == y.servers[n].authSent
  {
    VoteFacts(y.servers[n], n, r, now, nodeTimeout);
    assert y.servers[n].authEpoch <= y.servers[n].currentEpoch;
    hide Vote;
    hide Heard;
    hide ServerOK;
    hide SameRole;
  }

  /** A node heard something and nothing else changed. */
  lemma QuietCount(y: System, z: System, n: Name, m: Name)
    requires NoVote(y, z, n) && m in y.servers && m in y.counted && m in y.late && CountOK(y, m)
    requires z.counted == y.counted && z.late == y.late
    requires z.servers[n].authCount == y.servers[n].authCount && z.servers[n].authSent == y.servers[n].authSent
    requires z.servers[n].authEpoch == y.servers[n].authEpoch
    ensures CountOK(z, m)
  {
  }

  lemma QuietRequests(y: System, z: System, n: Name)
    requires NoVote(y, z, n) && RequestsOK(y) && z.requests == y.requests
    ensures RequestsOK(z)
  {
  }

  lemma RequestKnown(y: System, n: Name, r: Request, masters: set<Name>)
    requires Shape(y, masters) && n in y.servers && r in y.requests
    ensures r.from in y.servers && r.from in y.servers[n].nodes && |r.slots| == SLOTS / 8
  {
  }

  lemma MayVote(y: System, n: Name, masters: set<Name>)
    requires Shape(y, masters) && n in y.servers && n in y.servers[n].nodes
    requires y.servers[n].nodes[n].isMaster && y.servers[n].nodes[n].numslots != 0
    ensures n in masters
  {
  }

  lemma AskInv(y: System, n: Name, r: Request, now: int, nodeTimeout: nat, masters: set<Name>)
    requires Inv(y, masters) && n in y.servers && r in y.requests
    ensures ServerOK(y.servers[n], n) && r.from in y.servers[n].nodes && |r.slots| == SLOTS / 8
    ensures Inv(AskStep(y, n, r, now, nodeTimeout), masters)
  {
    hide *;
    InvParts(y, masters);
    KnowsOK(y, n, masters);
    RequestKnown(y, n, r, masters);
    AskChanges(y, n, r, now, nodeTimeout);
    var (s, ack) := Vote(Heard(y.servers[n], r), n, r, now, nodeTimeout);
    var z := AskStep(y, n, r, now, nodeTimeout);
    SameRoleKnows(y.servers[n], s, n, masters);
    SameRoleNodes(y.servers[n], s, n);
    assert forall b :: b in z.acks ==> b in y.acks || (b.from in y.servers && b.to in y.servers) by {
      AskAcks(y, z, n, s, r, ack);
    }
    ShapeKept(y, z, n, s, masters);
    if ack.Some? {
      MayVote(y, n, masters);
      GrantedBallots(y, z, n, s, r, ack.value, masters);
      forall m | m in z.servers ensures CountOK(z, m) {
        GrantedCount(y, z, n, s, r, ack.value, masters, m);
      }
    } else {
      NoVoteKeeps(y, z, n, masters);
      QuietRequests(y, z, n);
      forall m | m in z.servers ensures CountOK(z, m) {
        QuietCount(y, z, n, m);
      }
    }
    InvFrom(z, masters);
  }

  lemma AskAcks(y: System, z: System, n: Name, s: Server, r: Request, ack: Option<Ack>)
    requires n in y.servers && r.from in y.servers
    requires match ack case Some(a) => Granted(y, z, n, s, r, a) case None => z.acks == y.acks
    ensures forall b :: b in z.acks ==> b in y.acks || (b.from in y.servers && b.to in y.servers)
  {
  }

  // -- Deliver, Lose, Other --

  /** A counted vote: the ack's epoch is exactly that of the attempt. */
  lemma DeliveredCount(y: System, a: Ack, m: Name, masters: set<Name>)
    requires BallotsOK(y, masters) && AcksOK(y) && a in y.acks && y.counted.Keys == y.late.Keys == y.servers.Keys
    requires a.to in y.servers && ServerOK(y.servers[a.to], a.to) && a.from in y.servers[a.to].nodes
    requires m in y.servers && CountOK(y, m) && CountOK(y, a.to)
    ensures CountOK(DeliverStep(y, a), m)
  {
    hide *;
    var z := DeliverStep(y, a);
    DeliverIs(y, a);
    DeliverMaps(y, z, a);
    if m == a.to {
      AckIsVote(y, a, masters);
      CountedHere(y, z, a);
    } else {
      OthersCount(y, z, a.to, m);
    }
  }

  /** A vote on its way was given in an epoch the receiver asked for. */
  lemma AckIsVote(y: System, a: Ack, masters: set<Name>)
    requires BallotsOK(y, masters) && AcksOK(y) && a in y.acks && a.to in y.servers
    ensures Ballot(a.from, a.currentEpoch, a.to) in y.ballots && a.currentEpoch <= y.servers[a.to].authEpoch
    ensures forall b :: b in y.acks && b.from == a.from && b.currentEpoch == a.currentEpoch ==> b == a
  {
  }

  /** `t` is `s` after a vote arrived in epoch `e`, which was counted or not. */
  ghost predicate Counting(s: Server, t: Server, e: nat) {
    && t.authSent == s.authSent && t.authEpoch == s.authEpoch
    && (t.authCount == s.authCount || (t.authCount == s.authCount + 1 && e >= s.authEpoch))
  }

  ghost predicate Delivered(y: System, z: System, a: Ack) {
    && a.to in y.servers && a.to in z.servers && y.counted.Keys == y.late.Keys == y.servers.Keys
    && z.servers == y.servers[a.to := z.servers[a.to]] && z.acks == y.acks - {a}
    && z.ballots == y.ballots && z.requests == y.requests
    && Counting(y.servers[a.to], z.servers[a.to], a.currentEpoch)
    && var more := z.servers[a.to].authCount > y.servers[a.to].authCount;
      && z.counted == (if more && y.servers[a.to].authSent then y.counted[a.to := y.counted[a.to] + {a.from}] else y.counted)
      && z.late == (if more && !y.servers[a.to].authSent then y.late[a.to := y.late[a.to] + 1] else y.late)
  }

  lemma DeliverIs(y: System, a: Ack)
    requires a in y.acks && y.counted.Keys == y.late.Keys == y.servers.Keys
    requires a.to in y.servers && ServerOK(y.servers[a.to], a.to) && a.from in y.servers[a.to].nodes
    ensures Delivered(y, DeliverStep(y, a), a)
  {
    var h := Header(y.servers[a.to], a.from, a.currentEpoch, a.configEpoch);
    DeliverFacts(y.servers[a.to], a.to, a);
    HeaderFacts(y.servers[a.to], a.to, a.from, a.currentEpoch, a.configEpoch);
    assert h.authSent == y.servers[a.to].authSent;
    assert Counting(y.servers[a.to], CountAck(h, a), a.currentEpoch);
    hide Header;
    hide CountAck;
    hide ServerOK;
    hide SameRole;
    hide Counting;
  }

  lemma DeliverMaps(y: System, z: System, a: Ack)
    requires Delivered(y, z, a)
    ensures z.servers.Keys == y.servers.Keys && z.counted.Keys == y.counted.Keys && z.late.Keys == y.late.Keys
    ensures z.acks <= y.acks && z.ballots == y.ballots
    ensures forall m :: m in y.servers && m != a.to ==>
              z.servers[m] == y.servers[m] && z.counted[m] == y.counted[m] && z.late[m] == y.late[m]
  {
    hide Counting;
  }

  lemma CountedHere(y: System, z: System, a: Ack)
    requires Delivered(y, z, a) && CountOK(y, a.to) && a in y.acks
    requires Ballot(a.from, a.currentEpoch, a.to) in y.ballots && a.currentEpoch <= y.servers[a.to].authEpoch
    requires forall b :: b in y.acks && b.from == a.from && b.currentEpoch == a.currentEpoch ==> b == a
    ensures CountOK(z, a.to)
  {
  }

  lemma DeliverChanges(y: System, a: Ack)
    requires a in y.acks && y.counted.Keys == y.late.Keys == y.servers.Keys && ServersOK(y)
    requires a.to in y.servers && ServerOK(y.servers[a.to], a.to) && a.from in y.servers[a.to].nodes
    ensures var z := DeliverStep(y, a);
      && z.servers == y.servers[a.to := z.servers[a.to]] && z.counted.Keys == z.late.Keys == y.servers.Keys == z.servers.Keys
      && SameRole(y.servers[a.to], z.servers[a.to], a.to) && ServerOK(z.servers[a.to], a.to)
      && NoVote(y, z, a.to) && z.requests == y.requests
      && z.servers[a.to].authEpoch == y.servers[a.to].authEpoch
      && forall b :: b in z.acks ==> b in y.acks
  {
    DeliverFacts(y.servers[a.to], a.to, a);
    hide Header;
    hide CountAck;
    hide ServerOK;
    hide SameRole;
  }

  lemma AckKnown(y: System, a: Ack, masters: set<Name>)
    requires Shape(y, masters) && a in y.acks
    ensures a.from in y.servers && a.to in y.servers && a.from in y.servers[a.to].nodes
  {
  }

  lemma DeliverInv(y: System, a: Ack, masters: set<Name>)
    requires Inv(y, masters) && a in y.acks && a.to in y.servers
    ensures a.to in y.counted && a.to in y.late && a.from in y.servers[a.to].nodes
    ensures Inv(DeliverStep(y, a), masters)
  {
    InvParts(y, masters);
    AckKnown(y, a, masters);
    var n := a.to;
    KnowsOK(y, n, masters);
    DeliverChanges(y, a);
    var z := DeliverStep(y, a);
    hide *;
    SameRoleKnows(y.servers[n], z.servers[n], n, masters);
    SameRoleNodes(y.servers[n], z.servers[n], n);
    ShapeKept(y, z, n, z.servers[n], masters);
    NoVoteKeeps(y, z, n, masters);
    QuietRequests(y, z, n);
    forall m | m in z.servers ensures CountOK(z, m) {
      DeliveredCount(y, a, m, masters);
    }
    InvFrom(z, masters);
  }

  /** A node changed as `LeavesElection` allows, or a message was lost. */
  lemma ElsewhereChanges(y: System, n: Name, s: Server, acks: set<Ack>)
    requires n in y.servers && ServersOK(y) && LeavesElection(y.servers[n], s) && acks <= y.acks
    ensures var z := y.(servers := y.servers[n := s], acks := acks);
      && NoVote(y, z, n) && z.servers.Keys == y.servers.Keys
      && (forall b :: b in z.acks ==> b in y.acks)
      && z.servers[n].authCount == y.servers[n].authCount && z.servers[n].authSent == y.servers[n].authSent
      && z.servers[n].authEpoch == y.servers[n].authEpoch
  {
  }

  lemma ElsewhereInv(y: System, n: Name, s: Server, acks: set<Ack>, masters: set<Name>)
    requires Inv(y, masters) && n in y.servers && acks <= y.acks
    requires LeavesElection(y.servers[n], s) && KnowsMasters(s, n, masters)
    ensures Inv(y.(servers := y.servers[n := s], acks := acks), masters)
  {
    hide *;
    InvParts(y, masters);
    var z := y.(servers := y.servers[n := s], acks := acks);
    KnowsOK(y, n, masters);
    ElsewhereChanges(y, n, s, acks);
    LeavesNodes(y.servers[n], s);
    ShapeKept(y, z, n, s, masters);
    NoVoteKeeps(y, z, n, masters);
    QuietRequests(y, z, n);
    forall m | m in z.servers ensures CountOK(z, m) {
      QuietCount(y, z, n, m);
    }
    InvFrom(z, masters);
  }

  lemma LoseInv(y: System, a: Ack, masters: set<Name>)
    requires Inv(y, masters) && a in y.acks
    ensures Inv(y.(acks := y.acks - {a}), masters)
  {
    hide *;
    InvParts(y, masters);
    AckKnown(y, a, masters);
    KnowsOK(y, a.to, masters);
    SameLeaves(y.servers[a.to]);
    SameSystem(y, a.to, y.acks - {a});
    ElsewhereInv(y, a.to, y.servers[a.to], y.acks - {a}, masters);
  }

  lemma CommandInv(y: System, n: Name, now: int, force: bool, masters: set<Name>)
    requires Inv(y, masters) && n in y.servers
    ensures Inv(y.(servers := y.servers[n := StartManual(y.servers[n], now, force)]), masters)
  {
    hide *;
    var s := StartManual(y.servers[n], now, force);
    InvParts(y, masters);
    KnowsOK(y, n, masters);
    ManualFacts(y.servers[n], n, now, 0, force);
    SameRoleKnows(y.servers[n], s, n, masters);
    SameRoleNodes(y.servers[n], s, n);
    KeepsLeaves(y.servers[n], s);
    ElsewhereInv(y, n, s, y.acks, masters);
    assert y.(servers := y.servers[n := s], acks := y.acks) == y.(servers := y.servers[n := s]);
  }

  lemma KeepsLeaves(s: Server, t: Server)
    requires Keeps(s, t) && s.nodes.Keys == t.nodes.Keys
    ensures LeavesElection(s, t)
  {
  }

  lemma SameLeaves(s: Server)
    ensures LeavesElection(s, s)
  {
  }

  lemma SameSystem(y: System, n: Name, acks: set<Ack>)
    requires n in y.servers
    ensures y.(servers := y.servers[n := y.servers[n]], acks := acks) == y.(acks := acks)
  {
    assert y.servers[n := y.servers[n]] == y.servers;
  }

  lemma LeavesNodes(s: Server, t: Server)
    requires LeavesElection(s, t)
    ensures s.nodes.Keys <= t.nodes.Keys
    ensures t.authCount == s.authCount && t.authSent == s.authSent && t.authEpoch == s.authEpoch
  {
  }

  // ---- Runs ----

  ghost predicate Run(y: System, es: seq<Event>, z: System, masters: set<Name>)
    decreases |es|
  {
    if es == [] then z == y
    else Shape(y, masters) && Allowed(y, es[0], masters) && Run(Do(y, es[0], masters), es[1..], z, masters)
  }

  lemma StepInv(y: System, e: Event, masters: set<Name>)
    requires Inv(y, masters) && Shape(y, masters) && Allowed(y, e, masters)
    ensures Inv(Do(y, e, masters), masters)
  {
    hide Inv;
    hide Shape;
    hide KnowsMasters;
    hide ServerOK;
    hide LeavesElection;
    hide LookStep;
    hide AskStep;
    hide DeliverStep;
    hide StartManual;
    match e
    case Look(n, s, cron) => LookInv(y, n, s, cron, masters);
    case Command(n, now, force) => CommandInv(y, n, now, force, masters);
    case Ask(n, r, now, t) => AskInv(y, n, r, now, t, masters);
    case Deliver(a) =>
      AckKnown(y, a, masters);
      DeliverInv(y, a, masters);
    case Lose(a) => LoseInv(y, a, masters);
    case Other(n, s) => ElsewhereInv(y, n, s, y.acks, masters);
  }

  lemma BallotsGrow(y: System, e: Event, masters: set<Name>)
    requires Shape(y, masters) && Allowed(y, e, masters)
    ensures y.ballots <= Do(y, e, masters).ballots
  {
    hide HandleFailover;
    hide Vote;
    hide CountAck;
    hide Header;
    hide KnowsMasters;
  }

  lemma {:induction false} RunInv(y: System, es: seq<Event>, z: System, masters: set<Name>)
    requires Inv(y, masters) && Run(y, es, z, masters)
    ensures Inv(z, masters) && y.ballots <= z.ballots
    decreases |es|
  {
    if es != [] {
      StepInv(y, es[0], masters);
      BallotsGrow(y, es[0], masters);
      hide Inv;
      hide Do;
      RunInv(Do(y, es[0], masters), es[1..], z, masters);
    }
  }

  // ---- Safety ----

  ghost predicate ReachedQuorum(y: System, n: Name, epoch: nat) {
    n in y.servers && y.servers[n].authEpoch == epoch && y.servers[n].authCount >= Quorum(y.servers[n])
  }

  /** The quorum is reached without the late votes. */
  ghost predicate VotedIn(y: System, n: Name, epoch: nat) {
    && n in y.servers && n in y.late && y.servers[n].authEpoch == epoch
    && y.servers[n].authCount - y.late[n] >= Quorum(y.servers[n])
  }

  /** Two majorities of the masters have a master in common. */
  lemma MajoritiesMeet(a: set<Name>, b: set<Name>, all: set<Name>) returns (v: Name)
    requires a <= all && b <= all && |a| > |all| / 2 && |b| > |all| / 2
    ensures v in a && v in b
  {
    if a * b == {} {
      assert |a + b| == |a| + |b|;
      Fits(a + b, all);
      assert false;
    }
    v :| v in a * b;
  }

  /** What the count is made of, in any run: votes of distinct masters for this node in the epoch it
      asked for, and late votes. It is the number of those masters if and only if no vote was late. */
  lemma CountIs(y: System, es: seq<Event>, z: System, masters: set<Name>, n: Name) returns (vs: set<Name>)
    requires Start(y, masters) && Run(y, es, z, masters) && n in z.servers
    ensures n in z.late && z.servers[n].authCount == |vs| + z.late[n] && vs <= masters
    ensures forall v :: v in vs ==> Ballot(v, z.servers[n].authEpoch, n) in z.ballots
    ensures z.servers[n].authCount == |vs| <==> z.late[n] == 0
    ensures ReachedQuorum(z, n, z.servers[n].authEpoch) && z.late[n] == 0 ==> |vs| > |masters| / 2
  {
    StartInv(y, masters);
    RunInv(y, es, z, masters);
    KnowsOK(z, n, masters);
    assert CountOK(z, n);
    vs := z.counted[n];
    hide ServerOK;
  }

  /** A quorum reached is a majority of masters that voted for this node in this epoch exactly if it is
      reached without the late votes. */
  lemma QuorumIsMajority(y: System, masters: set<Name>, n: Name, epoch: nat) returns (vs: set<Name>)
    requires Inv(y, masters) && ReachedQuorum(y, n, epoch)
    ensures n in y.counted && vs == y.counted[n] && vs <= masters
    ensures forall v :: v in vs ==> Ballot(v, epoch, n) in y.ballots
    ensures |vs| > |masters| / 2 <==> VotedIn(y, n, epoch)
  {
    KnowsOK(y, n, masters);
    assert CountOK(y, n);
    vs := y.counted[n];
    hide ServerOK;
  }

  /** Along any run of the code, whenever two nodes have reached the quorum without late votes, even at
      different moments, in attempts of the same epoch, the two are the same node. */
  lemma VotedInOnce(y: System, es: seq<Event>, z: System, fs: seq<Event>, w: System, masters: set<Name>,
                    a: Name, b: Name, epoch: nat)
    requires Start(y, masters)
    requires Run(y, es, z, masters) && Run(z, fs, w, masters)
    requires VotedIn(z, a, epoch) && VotedIn(w, b, epoch)
    ensures a == b
  {
    StartInv(y, masters);
    RunInv(y, es, z, masters);
    RunInv(z, fs, w, masters);
    var va := QuorumIsMajority(z, masters, a, epoch);
    var vb := QuorumIsMajority(w, masters, b, epoch);
    var v := MajoritiesMeet(va, vb, masters);
    assert Ballot(v, epoch, a) in w.ballots && Ballot(v, epoch, b) in w.ballots;
    assert BallotsOK(w, masters);
  }

  // ---- Runs without late votes ----

  /** No vote is counted between scheduling and asking: each that arrives then is of an epoch older than
      the last attempt, or comes from a node without slots, and is ignored. */
  ghost predicate Timely(y: System, es: seq<Event>, masters: set<Name>)
    decreases |es|
  {
    es == [] ||
    (Shape(y, masters) && Allowed(y, es[0], masters) && Timely(Do(y, es[0], masters), es[1..], masters) &&
     match es[0]
     case Deliver(a) =>
       y.servers[a.to].authSent || a.currentEpoch < y.servers[a.to].authEpoch || !ServesSlots(y.servers[a.to], a.from)
     case _ => true)
  }

  ghost predicate ServesSlots(s: Server, n: Name) {
    n in s.nodes && s.nodes[n].isMaster && s.nodes[n].numslots > 0
  }

  ghost predicate NoneLate(y: System) {
    forall n :: n in y.late ==> y.late[n] == 0
  }

  lemma LookLate(y: System, n: Name, e: Surroundings, cron: bool)
    requires n in y.servers && n in y.counted && n in y.late && ServerOK(y.servers[n], n) && NoneLate(y)
    ensures NoneLate(LookStep(y, n, e, cron))
  {
    hide Turn;
    hide ServerOK;
    hide RequestOf;
  }

  lemma AskLate(y: System, n: Name, r: Request, now: int, nodeTimeout: nat)
    requires n in y.servers && ServerOK(y.servers[n], n) && r.from in y.servers[n].nodes && |r.slots| == SLOTS / 8
    ensures AskStep(y, n, r, now, nodeTimeout).late == y.late
  {
    HeardOK(y.servers[n], n, r.from, r.currentEpoch, r.configEpoch);
    hide Vote;
    hide Heard;
    hide ServerOK;
  }

  lemma DeliverLate(y: System, a: Ack)
    requires a.to in y.servers && a.to in y.counted && a.to in y.late && a.from in y.servers[a.to].nodes && NoneLate(y)
    requires y.servers[a.to].authSent || a.currentEpoch < y.servers[a.to].authEpoch || !ServesSlots(y.servers[a.to], a.from)
    ensures NoneLate(DeliverStep(y, a))
  {
  }

  lemma TimelyStep(y: System, es: seq<Event>, masters: set<Name>)
    requires es != [] && Timely(y, es, masters) && NoneLate(y)
    ensures Shape(y, masters) && Allowed(y, es[0], masters) && NoneLate(Do(y, es[0], masters))
  {
    TimelyFirst(y, es, masters);
    var e := es[0];
    hide Timely;
    hide LookStep;
    hide AskStep;
    hide DeliverStep;
    match e
    case Look(n, s, cron) =>
      KnowsOK(y, n, masters);
      hide NoneLate;
      LookLate(y, n, s, cron);
    case Ask(n, r, now, t) =>
      KnowsOK(y, n, masters);
      RequestKnown(y, n, r, masters);
      AskLate(y, n, r, now, t);
    case Deliver(a) =>
      AckKnown(y, a, masters);
      KnowsOK(y, a.to, masters);
      hide NoneLate;
      DeliverLate(y, a);
    case Command(n, now, force) =>
    case Lose(a) =>
    case Other(n, s) =>
  }

  lemma TimelyFirst(y: System, es: seq<Event>, masters: set<Name>)
    requires es != [] && Timely(y, es, masters)
    ensures Shape(y, masters) && Allowed(y, es[0], masters) && Timely(Do(y, es[0], masters), es[1..], masters)
    ensures es[0].Deliver? ==>
              var a := es[0].a;
              y.servers[a.to].authSent || a.currentEpoch < y.servers[a.to].authEpoch || !ServesSlots(y.servers[a.to], a.from)
  {
  }

  lemma {:induction false} TimelyRun(y: System, es: seq<Event>, z: System, masters: set<Name>)
    requires Run(y, es, z, masters) && Timely(y, es, masters) && NoneLate(y)
    ensures NoneLate(z)
    decreases |es|
  {
    if es != [] {
      TimelyStep(y, es, masters);
      TimelyFirst(y, es, masters);
      hide NoneLate;
      hide Do;
      hide Timely;
      TimelyRun(Do(y, es[0], masters), es[1..], z, masters);
    }
  }

  /** Election safety: along any run in which no late vote is counted, whenever two nodes have reached
      the quorum of their attempts, even at different moments, and the attempts have the same epoch, the
      two are the same node. */
  lemma ElectionSafety(y: System, es: seq<Event>, z: System, fs: seq<Event>, w: System, masters: set<Name>,
                       a: Name, b: Name, epoch: nat)
    requires Start(y, masters)
    requires Run(y, es, z, masters) && Run(z, fs, w, masters)
    requires Timely(y, es, masters) && Timely(z, fs, masters)
    requires ReachedQuorum(z, a, epoch) && ReachedQuorum(w, b, epoch)
    ensures a == b
  {
    StartInv(y, masters);
    RunInv(y, es, z, masters);
    RunInv(z, fs, w, masters);
    TimelyRun(y, es, z, masters);
    TimelyRun(z, fs, w, masters);
    KnowsOK(z, a, masters);
    KnowsOK(w, b, masters);
    hide Inv;
    hide Run;
    hide Timely;
    hide Start;
    VotedInOnce(y, es, z, fs, w, masters, a, b, epoch);
  }
}
