/** When a vote is given, when votes are asked for and when an election is won, in terms of what the node
    knew before, and what follows for the times of these events in any run. */
module ClusterElectionTimes {
  import opened Options
  import opened ClusterSlots
  import opened ClusterElection
  import opened ClusterElectionRun

  // ---- One vote ----

  /** What `s`, the voter before the packet, must hold: it serves slots as a master; it has heard of no
      newer epoch and did not vote in this one; the sender is a slave whose master failed, unless the
      request is forced; its last vote about that master is old; and no claimed slot has an owner of a
      greater configEpoch. */
  ghost predicate Earned(s: Server, me: Name, r: Request, now: int, nodeTimeout: nat)
    requires ServerOK(s, me) && r.from in s.nodes && |r.slots| == SLOTS / 8
  {
    && s.nodes[me].isMaster && s.nodes[me].numslots != 0
    && s.currentEpoch <= r.currentEpoch && s.lastVoteEpoch != r.currentEpoch
    && !s.nodes[r.from].isMaster && s.nodes[r.from].slaveof.Some?
    && (!s.nodes[s.nodes[r.from].slaveof.value].failed ==> r.force)
    && s.nodes[s.nodes[r.from].slaveof.value].votedTime + 2 * nodeTimeout <= now
    && forall j: nat :: j < SLOTS && TestBit(r.slots, j) && s.slots[j].Some? ==>
         s.nodes[s.slots[j].value].configEpoch <= r.configEpoch
  }

  lemma HeardGrants(s: Server, me: Name, r: Request, now: int, nodeTimeout: nat)
    requires ServerOK(s, me) && r.from in s.nodes && |r.slots| == SLOTS / 8
    ensures ServerOK(Heard(s, r), me) && r.from in Heard(s, r).nodes
    ensures Grants(Heard(s, r), me, r, now, nodeTimeout) <==> Earned(s, me, r, now, nodeTimeout)
  {
    HeardOK(s, me, r.from, r.currentEpoch, r.configEpoch);
    var h := Heard(s, r);
    hide TestBit;
    forall j: nat | j < SLOTS
      ensures OutdatedSlot(h, r, j) <==>
              TestBit(r.slots, j) && s.slots[j].Some? && s.nodes[s.slots[j].value].configEpoch > r.configEpoch
    {
    }
    hide OutdatedSlot;
  }

  /** The master a request is about. */
  ghost function About(s: Server, r: Request): Name
    requires r.from in s.nodes && s.nodes[r.from].slaveof.Some?
  {
    s.nodes[r.from].slaveof.value
  }

  lemma EarnedKnown(s: Server, me: Name, r: Request, now: int, nodeTimeout: nat)
    requires ServerOK(s, me) && r.from in s.nodes && |r.slots| == SLOTS / 8 && Earned(s, me, r, now, nodeTimeout)
    ensures s.nodes[r.from].slaveof.Some? && About(s, r) in s.nodes
    ensures s.nodes[About(s, r)].votedTime + 2 * nodeTimeout <= now
  {
    hide TestBit;
  }

  /** What the voter is after the request. */
  ghost predicate Answered(s: Server, t: Server, me: Name, r: Request, now: int, ack: Option<Ack>)
    requires r.from in s.nodes
  {
    t.authTime == s.authTime &&
    match ack
    case None =>
      t.lastVoteEpoch == s.lastVoteEpoch && t.nodes.Keys == s.nodes.Keys &&
      forall m :: m in s.nodes ==> t.nodes[m].votedTime == s.nodes[m].votedTime
    case Some(a) =>
      && a.from == me && a.to == r.from && a.currentEpoch == r.currentEpoch
      && t.lastVoteEpoch == r.currentEpoch && t.nodes.Keys == s.nodes.Keys
      && s.nodes[r.from].slaveof.Some?
      && forall m :: m in s.nodes ==>
           t.nodes[m].votedTime == if m == About(s, r) then now else s.nodes[m].votedTime
  }

  lemma EarnedVote(s: Server, me: Name, r: Request, now: int, nodeTimeout: nat)
    requires ServerOK(s, me) && r.from in s.nodes && |r.slots| == SLOTS / 8
    ensures ServerOK(Heard(s, r), me) && r.from in Heard(s, r).nodes
    ensures var (t, ack) := Vote(Heard(s, r), me, r, now, nodeTimeout);
      Answered(s, t, me, r, now, ack) && (ack.Some? <==> Earned(s, me, r, now, nodeTimeout))
  {
    HeardGrants(s, me, r, now, nodeTimeout);
    HeardIs(s, r);
    hide ServerOK;
    hide Grants;
    hide Heard;
    if Earned(s, me, r, now, nodeTimeout) {
      EarnedKnown(s, me, r, now, nodeTimeout);
      EarnedEpoch(s, me, r, now, nodeTimeout);
      hide Earned;
    }
  }

  lemma EarnedEpoch(s: Server, me: Name, r: Request, now: int, nodeTimeout: nat)
    requires ServerOK(s, me) && r.from in s.nodes && |r.slots| == SLOTS / 8 && Earned(s, me, r, now, nodeTimeout)
    ensures s.currentEpoch <= r.currentEpoch
  {
    hide TestBit;
  }

  /** A request is answered with a vote if and only if it is earned; the vote is an ack on its way, and it
      is remembered with its epoch and time. */
  lemma VoteIffEarned(y: System, n: Name, r: Request, now: int, nodeTimeout: nat, masters: set<Name>)
    returns (ack: Option<Ack>)
    requires Shape(y, masters) && Allowed(y, Ask(n, r, now, nodeTimeout), masters)
    ensures ServerOK(y.servers[n], n) && r.from in y.servers[n].nodes && |r.slots| == SLOTS / 8
    ensures ack.Some? <==> Earned(y.servers[n], n, r, now, nodeTimeout)
    ensures var z := Do(y, Ask(n, r, now, nodeTimeout), masters);
      && n in z.servers && z == y.(servers := y.servers[n := z.servers[n]], acks := z.acks, ballots := z.ballots)
      && Answered(y.servers[n], z.servers[n], n, r, now, ack)
      && match ack
         case Some(a) => z.ballots == y.ballots + {Ballot(n, r.currentEpoch, r.from)} && z.acks == y.acks + {a}
         case None => z.ballots == y.ballots && z.acks == y.acks
  {
    KnowsOK(y, n, masters);
    RequestKnown(y, n, r, masters);
    hide ServerOK;
    hide KnowsMasters;
    hide Grants;
    hide Earned;
    hide Heard;
    hide Vote;
    EarnedVote(y.servers[n], n, r, now, nodeTimeout);
    hide Answered;
    ack := Vote(Heard(y.servers[n], r), n, r, now, nodeTimeout).1;
    AnsweredEpoch(y.servers[n], Vote(Heard(y.servers[n], r), n, r, now, nodeTimeout).0, n, r, now, ack);
  }

  lemma AnsweredEpoch(s: Server, t: Server, me: Name, r: Request, now: int, ack: Option<Ack>)
    requires r.from in s.nodes && Answered(s, t, me, r, now, ack)
    ensures ack.Some? ==> ack.value.currentEpoch == r.currentEpoch
  {
  }

  lemma HeardIs(s: Server, r: Request)
    requires r.from in s.nodes
    ensures var h := Heard(s, r);
      && h.nodes.Keys == s.nodes.Keys && h.lastVoteEpoch == s.lastVoteEpoch && h.authTime == s.authTime
      && h.currentEpoch == (if r.currentEpoch > s.currentEpoch then r.currentEpoch else s.currentEpoch)
      && forall m :: m in s.nodes ==> h.nodes[m].slaveof == s.nodes[m].slaveof && h.nodes[m].votedTime == s.nodes[m].votedTime
  {
  }

  // ---- Votes in runs ----

  /** A run with the states it goes through. */
  ghost predicate Trace(ys: seq<System>, es: seq<Event>, masters: set<Name>) {
    && |ys| == |es| + 1
    && forall i {:trigger es[i]} :: 0 <= i < |es| ==> Steps(ys[i], es[i], ys[i + 1], masters)
  }

  lemma TraceStep(ys: seq<System>, es: seq<Event>, masters: set<Name>, i: nat)
    requires Trace(ys, es, masters) && i < |es|
    ensures |ys| == |es| + 1 && Steps(ys[i], es[i], ys[i + 1], masters)
  {
    hide Steps;
  }

  ghost predicate Steps(y: System, e: Event, z: System, masters: set<Name>) {
    Shape(y, masters) && Allowed(y, e, masters) && z == Do(y, e, masters)
  }

  /** Every run is one. */
  lemma {:induction false} RunTrace(y: System, es: seq<Event>, z: System, masters: set<Name>) returns (ys: seq<System>)
    requires Run(y, es, z, masters)
    ensures Trace(ys, es, masters) && ys[0] == y && ys[|es|] == z
    decreases |es|
  {
    hide Do;
    hide Allowed;
    hide Shape;
    if es == [] {
      return [y];
    }
    var more := RunTrace(Do(y, es[0], masters), es[1..], z, masters);
    ys := [y] + more;
    forall i | 0 <= i < |es| ensures Steps(ys[i], es[i], ys[i + 1], masters) {
      if i > 0 {
        assert es[1..][i - 1] == es[i];
      }
    }
  }

  /** The event is a request of `b.to` that earns `b.voter`'s vote in the state it arrives in. */
  ghost predicate VoteGiven(y: System, e: Event, b: Ballot) {
    && e.Ask? && e.n == b.voter && e.r.from == b.to && e.r.currentEpoch == b.epoch
    && b.voter in y.servers && ServerOK(y.servers[b.voter], b.voter) && b.to in y.servers[b.voter].nodes
    && |e.r.slots| == SLOTS / 8 && e.r in y.requests
    && Earned(y.servers[b.voter], b.voter, e.r, e.now, e.nodeTimeout)
  }

  lemma NewBallot(y: System, e: Event, z: System, masters: set<Name>, b: Ballot)
    requires Steps(y, e, z, masters) && b in z.ballots && b !in y.ballots
    ensures VoteGiven(y, e, b)
  {
    hide Do;
    hide Earned;
    hide ServerOK;
    hide Answered;
    if e.Ask? {
      var ack := VoteIffEarned(y, e.n, e.r, e.now, e.nodeTimeout, masters);
    } else {
      var n, s := BecomesOne(y, e, z, masters);
    }
  }

  /** Every vote in a run was earned when it was given. */
  lemma {:induction false} EveryVoteEarned(ys: seq<System>, es: seq<Event>, masters: set<Name>, k: nat, b: Ballot)
    returns (i: nat)
    requires Trace(ys, es, masters) && ys[0].ballots == {} && k <= |es| && b in ys[k].ballots
    ensures i < k && VoteGiven(ys[i], es[i], b)
  {
    hide *;
    assert k > 0;
    TraceStep(ys, es, masters, k - 1);
    if b in ys[k - 1].ballots {
      i := EveryVoteEarned(ys, es, masters, k - 1, b);
    } else {
      NewBallot(ys[k - 1], es[k - 1], ys[k], masters, b);
      i := k - 1;
    }
  }

  // ---- Votes about one master are spaced ----

  /** The voter's time for `m` is at least `t`. */
  ghost predicate VotedSince(y: System, v: Name, m: Name, t: int) {
    v in y.servers && m in y.servers[v].nodes && y.servers[v].nodes[m].votedTime >= t
  }

  ghost predicate TimesKept(s: Server, t: Server) {
    s.nodes.Keys <= t.nodes.Keys && forall m :: m in s.nodes ==> t.nodes[m].votedTime == s.nodes[m].votedTime
  }

  lemma HandleTimes(s: Server, me: Name, e: Surroundings)
    requires me in s.nodes && (s.nodes[me].slaveof.Some? ==> s.nodes[me].slaveof.value in s.nodes)
    ensures TimesKept(s, HandleFailover(s, me, e).0)
  {
    hide TooOld;
    hide MayFailover;
    hide AuthTimeout;
  }

  lemma TurnTimes(s: Server, me: Name, e: Surroundings, cron: bool)
    requires me in s.nodes && (s.nodes[me].slaveof.Some? ==> s.nodes[me].slaveof.value in s.nodes)
    ensures TimesKept(s, Turn(s, me, e, cron).0)
  {
    HandleTimes(if cron then HandleManual(CheckTimeout(s, e.now), e.offset) else s, me, e);
    hide HandleFailover;
  }

  /** The node an event changes, and what it becomes, for all but requests. */
  ghost predicate Becomes(y: System, e: Event, z: System, n: Name, s: Server) {
    && n in y.servers && z.servers == y.servers[n := s] && z.ballots == y.ballots
    && match e
       case Look(m, e, cron) =>
         n == m && ServerOK(y.servers[n], n) && Known(y.servers[n], n) && s == Turn(y.servers[n], n, e, cron).0
       case Command(m, now, force) => n == m && s == StartManual(y.servers[n], now, force)
       case Deliver(a) =>
         n == a.to && a.from in y.servers[n].nodes &&
         s == CountAck(Header(y.servers[n], a.from, a.currentEpoch, a.configEpoch), a)
       case Lose(a) => s == y.servers[n]
       case Other(m, t) => n == m && s == t && LeavesElection(y.servers[n], s) && LeavesTimes(y.servers[n], s)
       case Ask(_, _, _, _) => false
  }

  ghost predicate Known(s: Server, me: Name) {
    me in s.nodes && (s.nodes[me].slaveof.Some? ==> s.nodes[me].slaveof.value in s.nodes)
  }

  lemma BecomesOne(y: System, e: Event, z: System, masters: set<Name>) returns (n: Name, s: Server)
    requires Steps(y, e, z, masters) && !e.Ask?
    ensures Becomes(y, e, z, n, s)
  {
    hide KnowsMasters;
    hide ServerOK;
    hide Turn;
    hide StartManual;
    hide CountAck;
    hide Header;
    hide LeavesElection;
    hide LeavesTimes;
    match e {
      case Look(m, x, cron) =>
        KnowsOK(y, m, masters);
        SlaveKnown(y.servers[m], m);
        n, s := m, Turn(y.servers[m], m, x, cron).0;
      case Command(m, now, force) =>
        n, s := m, StartManual(y.servers[m], now, force);
      case Deliver(a) =>
        AckKnown(y, a, masters);
        HeaderTimes(y.servers[a.to], a.from, a.currentEpoch, a.configEpoch);
        n, s := a.to, CountAck(Header(y.servers[a.to], a.from, a.currentEpoch, a.configEpoch), a);
      case Lose(a) =>
        AckKnown(y, a, masters);
        n, s := a.to, y.servers[a.to];
        assert y.servers[n := s] == y.servers;
      case Other(m, t) =>
        n, s := m, t;
    }
  }

  lemma HeaderTimes(s: Server, from: Name, currentEpoch: nat, configEpoch: nat)
    requires from in s.nodes
    ensures TimesKept(s, Header(s, from, currentEpoch, configEpoch))
  {
  }

  lemma BecomesTimes(y: System, e: Event, z: System, n: Name, s: Server, v: Name)
    requires Becomes(y, e, z, n, s) && v in y.servers
    ensures v in z.servers && TimesKept(y.servers[v], z.servers[v])
  {
    hide ServerOK;
    hide Turn;
    hide Header;
    if e.Look? {
      TurnTimes(y.servers[n], n, e.e, e.cron);
    } else if e.Deliver? {
      HeaderTimes(y.servers[n], e.a.from, e.a.currentEpoch, e.a.configEpoch);
    }
  }

  lemma AnsweredSince(s: Server, t: Server, me: Name, r: Request, now: int, nodeTimeout: nat, ack: Option<Ack>, m: Name,
                      since: int)
    requires ServerOK(s, me) && r.from in s.nodes && |r.slots| == SLOTS / 8 && Answered(s, t, me, r, now, ack)
    requires ack.Some? ==> Earned(s, me, r, now, nodeTimeout)
    requires m in s.nodes && s.nodes[m].votedTime >= since
    ensures m in t.nodes && t.nodes[m].votedTime >= since
  {
    if ack.Some? {
      EarnedKnown(s, me, r, now, nodeTimeout);
    }
    hide ServerOK;
    hide Earned;
  }

  lemma VotedSinceStays(y: System, e: Event, z: System, masters: set<Name>, v: Name, m: Name, t: int)
    requires Steps(y, e, z, masters) && VotedSince(y, v, m, t)
    ensures VotedSince(z, v, m, t)
  {
    hide *;
    if e.Ask? {
      StepsAllowed(y, e, z, masters);
      var ack := VoteIffEarned(y, e.n, e.r, e.now, e.nodeTimeout, masters);
      AskedSince(y, e, z, masters, ack, v, m, t);
    } else {
      var n, s := BecomesOne(y, e, z, masters);
      SinceKnown(y, v, m, t);
      BecomesTimes(y, e, z, n, s, v);
      KeptSince(y, z, v, m, t);
    }
  }

  lemma StepsAllowed(y: System, e: Event, z: System, masters: set<Name>)
    requires Steps(y, e, z, masters)
    ensures Shape(y, masters) && Allowed(y, e, masters) && z == Do(y, e, masters)
  {
  }

  lemma SinceKnown(y: System, v: Name, m: Name, t: int)
    requires VotedSince(y, v, m, t)
    ensures v in y.servers
  {
  }

  lemma KeptSince(y: System, z: System, v: Name, m: Name, t: int)
    requires VotedSince(y, v, m, t) && v in z.servers && TimesKept(y.servers[v], z.servers[v])
    ensures VotedSince(z, v, m, t)
  {
  }

  lemma AskedSince(y: System, e: Event, z: System, masters: set<Name>, ack: Option<Ack>, v: Name, m: Name, t: int)
    requires e.Ask? && e.n in y.servers && e.n in z.servers && VotedSince(y, v, m, t)
    requires ServerOK(y.servers[e.n], e.n) && e.r.from in y.servers[e.n].nodes && |e.r.slots| == SLOTS / 8
    requires ack.Some? ==> Earned(y.servers[e.n], e.n, e.r, e.now, e.nodeTimeout)
    requires z.servers == y.servers[e.n := z.servers[e.n]]
    requires Answered(y.servers[e.n], z.servers[e.n], e.n, e.r, e.now, ack)
    ensures VotedSince(z, v, m, t)
  {
    if v == e.n {
      AnsweredSince(y.servers[v], z.servers[v], v, e.r, e.now, e.nodeTimeout, ack, m, t);
    }
    hide Answered;
    hide Earned;
    hide ServerOK;
  }

  lemma {:induction false} VotedSinceLater(ys: seq<System>, es: seq<Event>, masters: set<Name>, i: nat, j: nat, v: Name,
                                           m: Name, t: int)
    requires Trace(ys, es, masters) && i <= j <= |es| && VotedSince(ys[i], v, m, t)
    ensures VotedSince(ys[j], v, m, t)
    decreases j
  {
    hide *;
    if i < j {
      VotedSinceLater(ys, es, masters, i, j - 1, v, m, t);
      TraceStep(ys, es, masters, j - 1);
      VotedSinceStays(ys[j - 1], es[j - 1], ys[j], masters, v, m, t);
    }
  }

  /** The request at `e` earns a vote of `v` about master `m`. */
  ghost predicate VotesAbout(y: System, e: Event, v: Name, m: Name) {
    && e.Ask? && e.n == v && v in y.servers && ServerOK(y.servers[v], v) && e.r.from in y.servers[v].nodes
    && |e.r.slots| == SLOTS / 8 && Earned(y.servers[v], v, e.r, e.now, e.nodeTimeout)
    && y.servers[v].nodes[e.r.from].slaveof == Some(m)
  }

  lemma VoteTimed(y: System, e: Event, z: System, masters: set<Name>, v: Name, m: Name)
    requires Steps(y, e, z, masters) && VotesAbout(y, e, v, m)
    ensures e.Ask? && VotedSince(z, v, m, e.now)
  {
    var ack := VoteIffEarned(y, e.n, e.r, e.now, e.nodeTimeout, masters);
    EarnedKnown(y.servers[v], v, e.r, e.now, e.nodeTimeout);
    hide Do;
    hide Shape;
    hide Earned;
  }

  /** Along any run a node votes about one master at most once in twice its node timeout, whatever slaves
      of that master ask. */
  lemma VotesSpaced(ys: seq<System>, es: seq<Event>, masters: set<Name>, i: nat, j: nat, v: Name, m: Name)
    requires Trace(ys, es, masters) && i < j < |es|
    requires VotesAbout(ys[i], es[i], v, m) && VotesAbout(ys[j], es[j], v, m)
    ensures es[i].now + 2 * es[j].nodeTimeout <= es[j].now
  {
    hide *;
    TraceStep(ys, es, masters, i);
    TraceStep(ys, es, masters, j);
    VoteTimed(ys[i], es[i], ys[i + 1], masters, v, m);
    VotedSinceLater(ys, es, masters, i + 1, j, v, m, es[i].now);
    VoteNotSoon(ys[j], es[j], v, m, es[i].now);
  }

  lemma VoteNotSoon(y: System, e: Event, v: Name, m: Name, t: int)
    requires VotesAbout(y, e, v, m) && VotedSince(y, v, m, t)
    ensures e.Ask? && t + 2 * e.nodeTimeout <= e.now
  {
    EarnedKnown(y.servers[v], v, e.r, e.now, e.nodeTimeout);
    hide Earned;
    hide ServerOK;
  }

  // ---- The slave's decision ----

  /** A manual failover is in progress; the cron gives it up when it is past its time. */
  ghost predicate ManualOn(s: Server, e: Surroundings, cron: bool) {
    s.mfEnd != 0 && (cron ==> e.now <= s.mfEnd)
  }

  /** And may go on without the master being down: it was forced, or the master's offset is reached. */
  ghost predicate ManualGoes(s: Server, e: Surroundings, cron: bool) {
    && ManualOn(s, e, cron)
    && (s.mfCanStart || (cron && s.mfMasterOffset != 0 && s.mfMasterOffset == e.offset))
  }

  /** Milliseconds without the master, less the time it took to be found failed. */
  ghost predicate DataFresh(e: Surroundings) {
    var down := 1000 * if e.connected then e.sinceInteraction else e.sinceDown;
    var allowed := e.pingPeriod * 1000 + e.nodeTimeout * e.validityFactor;
    if down > e.nodeTimeout then down <= allowed + e.nodeTimeout else down <= allowed
  }

  /** The node may try to take over: it is a slave of a known master that serves slots and failed, and its
      data is fresh enough; a manual failover needs neither the failure nor the freshness. */
  ghost predicate Able(s: Server, me: Name, e: Surroundings, goes: bool)
    requires Known(s, me)
  {
    && !s.nodes[me].isMaster && s.nodes[me].slaveof.Some?
    && s.nodes[s.nodes[me].slaveof.value].numslots != 0
    && (goes || (s.nodes[s.nodes[me].slaveof.value].failed && (e.validityFactor == 0 || DataFresh(e))))
  }

  /** How long an attempt lasts: the greater of twice the node timeout and two seconds. */
  ghost function Timeout(e: Surroundings): (t: nat)
    ensures t >= 2000 && t >= 2 * e.nodeTimeout && t in {2000, 2 * e.nodeTimeout}
  {
    if e.nodeTimeout > 1000 then 2 * e.nodeTimeout else 2000
  }

  /** A second more for every rank lost since the attempt was scheduled. */
  ghost function Delay(s: Server, e: Surroundings, on: bool): nat {
    if !s.authSent && !on && e.rank > s.authRank then 1000 * (e.rank - s.authRank) else 0
  }

  ghost predicate Due(s: Server, e: Surroundings, on: bool) {
    s.authTime + Delay(s, e, on) <= e.now <= s.authTime + Timeout(e)
  }

  /** Each outcome of a look, exactly, and what it changes. */
  ghost predicate Decided(s: Server, t: Server, me: Name, e: Surroundings, on: bool, goes: bool, o: Outcome)
    requires Known(s, me) && me in t.nodes
  {
    var able := Able(s, me, e, goes);
    var over := e.now > s.authTime + 2 * Timeout(e);
    && (o == Idle || o == DataTooOld <==> !able)
    && (o == Scheduled <==> able && over)
    && (o == Requested <==> able && Due(s, e, on) && !s.authSent)
    && (o == Won <==> able && Due(s, e, on) && s.authSent && 2 * s.authCount > s.size)
    && (o == WaitingVotes <==> able && Due(s, e, on) && s.authSent && 2 * s.authCount <= s.size)
    && (o == Delayed <==> able && !over && e.now < s.authTime + Delay(s, e, on))
    && t.nodes.Keys == s.nodes.Keys && (o != Won ==> t.nodes == s.nodes) && (t.mfEnd != 0 <==> on)
    && (o == Scheduled ==>
          if on then t.authTime == e.now
          else e.now + 500 + 1000 * e.rank <= t.authTime < e.now + 1000 + 1000 * e.rank)
    && (o == Scheduled ==> t.authCount == 0 && !t.authSent)
    && (o == Requested ==> t.authSent && t.authEpoch == t.currentEpoch == s.currentEpoch + 1)
    && (o != Scheduled && able ==> t.authTime == s.authTime + Delay(s, e, on))
    && (!able ==> t.authTime == s.authTime)
    && (o != Requested ==> t.currentEpoch == s.currentEpoch && t.authEpoch == s.authEpoch)
    && (o != Requested && o != Scheduled ==> t.authSent == s.authSent && t.authCount == s.authCount)
    && t.nodes[me].configEpoch == if o == Won && s.nodes[me].configEpoch < s.authEpoch then s.authEpoch
                                  else s.nodes[me].configEpoch
  }

  lemma AttemptDecides(s: Server, me: Name, e: Surroundings)
    requires Known(s, me) && me in AttemptStep(s, me, e, e.now - s.authTime, AuthTimeout(e)).0.nodes
    requires Able(s, me, e, ManualFailover(s)) && e.now - s.authTime <= 2 * AuthTimeout(e)
    ensures var (t, o) := AttemptStep(s, me, e, e.now - s.authTime, AuthTimeout(e));
      Decided(s, t, me, e, s.mfEnd != 0, ManualFailover(s), o)
  {
    assert AuthTimeout(e) == Timeout(e);
    hide AuthTimeout;
    hide Able;
    hide ManualFailover;
    QuorumIs(s);
    hide Quorum;
  }

  lemma QuorumIs(s: Server)
    ensures forall n: nat :: n >= Quorum(s) <==> 2 * n > s.size
  {
  }

  lemma AbleIs(s: Server, me: Name, e: Surroundings)
    requires Known(s, me)
    ensures Able(s, me, e, ManualFailover(s)) <==> MayFailover(s, me) && !TooOld(s, e)
  {
    FreshIs(e);
    hide DataFresh;
    hide DataAge;
  }

  lemma FreshIs(e: Surroundings)
    ensures DataFresh(e) <==> DataAge(e) <= e.pingPeriod * 1000 + e.nodeTimeout * e.validityFactor
  {
  }

  lemma HandlerDecides(s: Server, me: Name, e: Surroundings)
    requires Known(s, me)
    ensures var (t, o) := HandleFailover(s, me, e);
      me in t.nodes && Decided(s, t, me, e, s.mfEnd != 0, ManualFailover(s), o)
  {
    AbleIs(s, me, e);
    assert AuthTimeout(e) == Timeout(e);
    assert me in AttemptStep(s, me, e, e.now - s.authTime, AuthTimeout(e)).0.nodes;
    if MayFailover(s, me) && !TooOld(s, e) && e.now - s.authTime <= 2 * AuthTimeout(e) {
      AttemptDecides(s, me, e);
    }
    hide AttemptStep;
    hide Able;
    hide AuthTimeout;
    hide TooOld;
    hide MayFailover;
    hide ManualFailover;
  }

  /** A look decides as `Decided` says, in the cron and before sleeping. */
  lemma LookDecides(s: Server, me: Name, e: Surroundings, cron: bool)
    requires Known(s, me)
    ensures var (t, o) := Turn(s, me, e, cron);
      me in t.nodes && Decided(s, t, me, e, ManualOn(s, e, cron), ManualGoes(s, e, cron), o)
  {
    var u := HandleManual(CheckTimeout(s, e.now), e.offset);
    if cron {
      HandlerDecides(u, me, e);
    } else {
      HandlerDecides(s, me, e);
    }
    hide HandleFailover;
  }

  // ---- Decisions in runs ----

  /** The event schedules an attempt of `n`. */
  ghost predicate Schedules(y: System, e: Event, n: Name) {
    && e.Look? && e.n == n && n in y.servers && Known(y.servers[n], n)
    && Able(y.servers[n], n, e.e, ManualGoes(y.servers[n], e.e, e.cron))
    && e.e.now > y.servers[n].authTime + 2 * Timeout(e.e)
  }

  /** The event makes `n` ask for votes. */
  ghost predicate Asks(y: System, e: Event, n: Name) {
    && e.Look? && e.n == n && n in y.servers && Known(y.servers[n], n)
    && Able(y.servers[n], n, e.e, ManualGoes(y.servers[n], e.e, e.cron))
    && Due(y.servers[n], e.e, ManualOn(y.servers[n], e.e, e.cron)) && !y.servers[n].authSent
  }

  /** What is asked: a new epoch, with the slots and the configEpoch of the node's master. */
  ghost predicate AsksFor(s: Server, me: Name, r: Request, on: bool)
    requires Known(s, me)
  {
    && s.nodes[me].slaveof.Some? && r.from == me && r.currentEpoch == s.currentEpoch + 1
    && r.configEpoch == s.nodes[s.nodes[me].slaveof.value].configEpoch
    && r.slots == s.nodes[s.nodes[me].slaveof.value].slots
    && (r.force <==> on)
  }

  lemma RequestIs(s: Server, t: Server, me: Name, e: Surroundings, on: bool, goes: bool)
    requires Known(s, me) && me in t.nodes && Decided(s, t, me, e, on, goes, Requested)
    ensures Known(t, me) && AsksFor(s, me, RequestOf(t, me), on)
  {
    hide Due;
    hide DataFresh;
  }

  /** A look asks exactly when it is due, and then for what `AsksFor` says. */
  lemma LookAsks(y: System, e: Event, z: System, masters: set<Name>) returns (r: Request)
    requires Steps(y, e, z, masters) && e.Look?
    ensures e.n in y.servers && Known(y.servers[e.n], e.n)
    ensures Asks(y, e, e.n) ==>
              AsksFor(y.servers[e.n], e.n, r, ManualOn(y.servers[e.n], e.e, e.cron)) && z.requests == y.requests + {r}
    ensures !Asks(y, e, e.n) ==> z.requests == y.requests
  {
    hide *;
    LookRequests(y, e, z, masters);
    var s := y.servers[e.n];
    KnownParts(s, e.n);
    LookDecides(s, e.n, e.e, e.cron);
    var (t, o) := Turn(s, e.n, e.e, e.cron);
    KnownParts(t, e.n);
    AsksIff(y, e, t, o);
    r := RequestOf(t, e.n);
    if o == Requested {
      RequestIs(s, t, e.n, e.e, ManualOn(s, e.e, e.cron), ManualGoes(s, e.e, e.cron));
    }
  }

  lemma KnownParts(s: Server, me: Name)
    requires Known(s, me)
    ensures me in s.nodes && (s.nodes[me].slaveof.Some? ==> s.nodes[me].slaveof.value in s.nodes)
  {
  }

  lemma LookRequests(y: System, e: Event, z: System, masters: set<Name>)
    requires Steps(y, e, z, masters) && e.Look?
    ensures e.n in y.servers && Known(y.servers[e.n], e.n)
    ensures var (t, o) := Turn(y.servers[e.n], e.n, e.e, e.cron);
      && Known(t, e.n) && z.servers == y.servers[e.n := t]
      && z.requests == if o == Requested then y.requests + {RequestOf(t, e.n)} else y.requests
  {
    hide ServerOK;
    hide KnowsMasters;
    hide Turn;
    hide RequestOf;
    KnowsOK(y, e.n, masters);
    SlaveKnown(y.servers[e.n], e.n);
    TurnFacts(y.servers[e.n], e.n, e.e, e.cron);
    SlaveKnown(Turn(y.servers[e.n], e.n, e.e, e.cron).0, e.n);
  }

  lemma AsksIff(y: System, e: Event, t: Server, o: Outcome)
    requires e.Look? && e.n in y.servers && Known(y.servers[e.n], e.n) && e.n in t.nodes
    requires Decided(y.servers[e.n], t, e.n, e.e, ManualOn(y.servers[e.n], e.e, e.cron),
                     ManualGoes(y.servers[e.n], e.e, e.cron), o)
    ensures o == Requested <==> Asks(y, e, e.n)
    ensures o == Scheduled <==> Schedules(y, e, e.n)
  {
    hide Able;
    hide Due;
    hide ManualOn;
    hide ManualGoes;
  }

  /** The event made `r.from` ask with `r`, when it was due. */
  ghost predicate RequestMade(y: System, e: Event, r: Request) {
    && Asks(y, e, r.from) && AsksFor(y.servers[r.from], r.from, r, ManualOn(y.servers[r.from], e.e, e.cron))
  }

  lemma NewRequest(y: System, e: Event, z: System, masters: set<Name>, r: Request)
    requires Steps(y, e, z, masters) && r in z.requests && r !in y.requests
    ensures RequestMade(y, e, r)
  {
    hide ServerOK;
    hide KnowsMasters;
    hide Turn;
    hide Header;
    hide CountAck;
    hide Vote;
    hide Asks;
    hide RequestOf;
    hide StartManual;
    if e.Look? {
      var q := LookAsks(y, e, z, masters);
      assert Asks(y, e, e.n) && r == q;
    }
  }

  /** Every request in a run was due when it was made. */
  lemma {:induction false} EveryRequestDue(ys: seq<System>, es: seq<Event>, masters: set<Name>, k: nat, r: Request)
    returns (i: nat)
    requires Trace(ys, es, masters) && ys[0].requests == {} && k <= |es| && r in ys[k].requests
    ensures i < k && RequestMade(ys[i], es[i], r)
  {
    hide *;
    assert k > 0;
    TraceStep(ys, es, masters, k - 1);
    if r in ys[k - 1].requests {
      i := EveryRequestDue(ys, es, masters, k - 1, r);
    } else {
      NewRequest(ys[k - 1], es[k - 1], ys[k], masters, r);
      i := k - 1;
    }
  }

  // ---- Attempts are spaced ----

  ghost predicate AuthSince(y: System, n: Name, t: int) { n in y.servers && y.servers[n].authTime >= t }

  lemma BecomesLater(y: System, e: Event, z: System, n: Name, s: Server, v: Name)
    requires Becomes(y, e, z, n, s) && v in y.servers
    ensures v in z.servers && z.servers[v].authTime >= y.servers[v].authTime
  {
    hide ServerOK;
    hide Turn;
    hide Able;
    hide Due;
    hide LeavesElection;
    hide ManualOn;
    hide ManualGoes;
    if e.Look? {
      LookDecides(y.servers[n], n, e.e, e.cron);
    }
  }

  lemma AskedLater(y: System, e: Event, z: System, ack: Option<Ack>, v: Name)
    requires e.Ask? && e.n in y.servers && e.n in z.servers && v in y.servers && e.r.from in y.servers[e.n].nodes
    requires z.servers == y.servers[e.n := z.servers[e.n]]
    requires Answered(y.servers[e.n], z.servers[e.n], e.n, e.r, e.now, ack)
    ensures v in z.servers && z.servers[v].authTime >= y.servers[v].authTime
  {
  }

  lemma AuthSinceStays(y: System, e: Event, z: System, masters: set<Name>, n: Name, t: int)
    requires Steps(y, e, z, masters) && AuthSince(y, n, t)
    ensures AuthSince(z, n, t)
  {
    hide *;
    AuthKnown(y, n, t);
    if e.Ask? {
      StepsAllowed(y, e, z, masters);
      var ack := VoteIffEarned(y, e.n, e.r, e.now, e.nodeTimeout, masters);
      KnowsOK(y, e.n, masters);
      AskedLater(y, e, z, ack, n);
    } else {
      var m, s := BecomesOne(y, e, z, masters);
      BecomesLater(y, e, z, m, s, n);
    }
    LaterSince(y, z, n, t);
  }

  lemma AuthKnown(y: System, n: Name, t: int)
    requires AuthSince(y, n, t)
    ensures n in y.servers
  {
  }

  lemma LaterSince(y: System, z: System, n: Name, t: int)
    requires AuthSince(y, n, t) && n in z.servers && z.servers[n].authTime >= y.servers[n].authTime
    ensures AuthSince(z, n, t)
  {
  }

  lemma {:induction false} AuthSinceLater(ys: seq<System>, es: seq<Event>, masters: set<Name>, i: nat, j: nat, n: Name,
                                          t: int)
    requires Trace(ys, es, masters) && i <= j <= |es| && AuthSince(ys[i], n, t)
    ensures AuthSince(ys[j], n, t)
    decreases j
  {
    hide *;
    if i < j {
      AuthSinceLater(ys, es, masters, i, j - 1, n, t);
      TraceStep(ys, es, masters, j - 1);
      AuthSinceStays(ys[j - 1], es[j - 1], ys[j], masters, n, t);
    }
  }

  /** A scheduled attempt starts now if a manual failover is on, else half a second from now and a second
      for every rank. */
  lemma ScheduledFor(y: System, e: Event, z: System, masters: set<Name>, n: Name)
    requires Steps(y, e, z, masters) && Schedules(y, e, n)
    ensures e.Look? && n in y.servers && AuthSince(z, n, e.e.now)
    ensures !ManualOn(y.servers[n], e.e, e.cron) ==> AuthSince(z, n, e.e.now + 500 + 1000 * e.e.rank)
  {
    hide *;
    SchedulesLook(y, e, n);
    LookRequests(y, e, z, masters);
    LookDecides(y.servers[n], n, e.e, e.cron);
    var (t, o) := Turn(y.servers[n], n, e.e, e.cron);
    AsksIff(y, e, t, o);
    DecidedTime(y.servers[n], t, n, e.e, ManualOn(y.servers[n], e.e, e.cron), ManualGoes(y.servers[n], e.e, e.cron));
    SinceNow(z, n, t);
  }

  lemma SchedulesLook(y: System, e: Event, n: Name)
    requires Schedules(y, e, n)
    ensures e.Look? && e.n == n && n in y.servers && Known(y.servers[n], n)
  {
  }

  lemma DecidedTime(s: Server, t: Server, me: Name, e: Surroundings, on: bool, goes: bool)
    requires Known(s, me) && me in t.nodes && Decided(s, t, me, e, on, goes, Scheduled)
    ensures t.authTime >= if on then e.now else e.now + 500 + 1000 * e.rank
  {
  }

  lemma SinceNow(z: System, n: Name, t: Server)
    requires n in z.servers && z.servers[n] == t
    ensures forall since :: AuthSince(z, n, since) <==> t.authTime >= since
  {
  }

  /** Along any run two attempts of a node are scheduled more than twice the timeout apart. */
  lemma AttemptsSpaced(ys: seq<System>, es: seq<Event>, masters: set<Name>, i: nat, j: nat, n: Name)
    requires Trace(ys, es, masters) && i < j < |es| && Schedules(ys[i], es[i], n) && Schedules(ys[j], es[j], n)
    ensures es[j].e.now > es[i].e.now + 2 * Timeout(es[j].e)
  {
    hide *;
    TraceStep(ys, es, masters, i);
    ScheduledFor(ys[i], es[i], ys[i + 1], masters, n);
    AuthSinceLater(ys, es, masters, i + 1, j, n, es[i].e.now);
    ScheduledNotSoon(ys[j], es[j], n, es[i].e.now);
  }

  lemma ScheduledNotSoon(y: System, e: Event, n: Name, t: int)
    requires Schedules(y, e, n) && AuthSince(y, n, t)
    ensures e.Look? && e.e.now > t + 2 * Timeout(e.e)
  {
    hide Able;
    hide ManualGoes;
  }

  /** Along any run a node asks for votes no sooner than half a second, and a second for every slave ahead
      of it, after it scheduled an attempt, unless that was for a manual failover. */
  lemma AskedAfterDelay(ys: seq<System>, es: seq<Event>, masters: set<Name>, i: nat, j: nat, n: Name)
    requires Trace(ys, es, masters) && i < j < |es| && Schedules(ys[i], es[i], n) && Asks(ys[j], es[j], n)
    requires !ManualOn(ys[i].servers[n], es[i].e, es[i].cron)
    ensures es[j].e.now >= es[i].e.now + 500 + 1000 * es[i].e.rank
  {
    hide *;
    TraceStep(ys, es, masters, i);
    ScheduledFor(ys[i], es[i], ys[i + 1], masters, n);
    AuthSinceLater(ys, es, masters, i + 1, j, n, es[i].e.now + 500 + 1000 * es[i].e.rank);
    AskedNotSoon(ys[j], es[j], n, es[i].e.now + 500 + 1000 * es[i].e.rank);
  }

  lemma AskedNotSoon(y: System, e: Event, n: Name, t: int)
    requires Asks(y, e, n) && AuthSince(y, n, t)
    ensures e.Look? && e.e.now >= t
  {
    hide Able;
    hide ManualGoes;
  }

  // ---- Counting votes ----

  /** The vote counts: its sender serves slots as a master, and it is no older than the attempt. */
  ghost predicate Counts(s: Server, a: Ack)
    requires a.from in s.nodes
  {
    s.nodes[a.from].isMaster && s.nodes[a.from].numslots > 0 && s.authEpoch <= a.currentEpoch
  }

  /** A vote that arrives adds one to the count exactly if it counts. */
  lemma AckCounts(y: System, a: Ack, z: System, masters: set<Name>)
    requires Steps(y, Deliver(a), z, masters)
    ensures a.to in y.servers && a.to in z.servers && a.from in y.servers[a.to].nodes
    ensures z.servers[a.to].authCount == y.servers[a.to].authCount + (if Counts(y.servers[a.to], a) then 1 else 0)
    ensures z.servers[a.to].currentEpoch >= a.currentEpoch
  {
    AckKnown(y, a, masters);
    hide KnowsMasters;
    hide ServerOK;
  }
}
