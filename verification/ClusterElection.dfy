/** Failover elections of cluster.c: what one node does when it is asked for a vote, when it gets one,
    and each time it looks at its own election. Time stamps, the slave's rank and the random delay are
    parameters; epochs are unbounded. */
module ClusterElection {
  import opened Options
  import opened ClusterSlots

  /** The election fields of `clusterState`, with the nodes known and the slot table. */
  datatype Server = Server(
    currentEpoch: nat, lastVoteEpoch: nat,
    authTime: int, authCount: nat, authSent: bool, authRank: int, authEpoch: nat,
    mfEnd: int, mfCanStart: bool, mfMasterOffset: int, size: nat,
    nodes: map<Name, Node>, slots: seq<Option<Name>>)

  /** A vote request: the header's epochs and slots, and the force flag of a manual failover. */
  datatype Request = Request(from: Name, currentEpoch: nat, configEpoch: nat, slots: seq<bv8>, force: bool)

  datatype Ack = Ack(from: Name, to: Name, currentEpoch: nat, configEpoch: nat)

  /** How long a manual failover may take, in milliseconds (cluster.h:24). */
  const MF_TIMEOUT := 5000

  /** What the node reads from its surroundings when it looks at its election. */
  datatype Surroundings = Surroundings(
    now: int, offset: int, rank: nat, random: nat, connected: bool, sinceInteraction: int, sinceDown: int,
    nodeTimeout: nat, validityFactor: nat, pingPeriod: nat)

  datatype Outcome = Idle | DataTooOld | Scheduled | Delayed | Expired | Requested | Won | WaitingVotes

  ghost predicate ServerOK(s: Server, me: Name) {
    && me in s.nodes && |s.slots| == SLOTS
    && (forall j :: 0 <= j < SLOTS && s.slots[j].Some? ==> s.slots[j].value in s.nodes)
    && (forall n :: n in s.nodes && s.nodes[n].slaveof.Some? ==> s.nodes[n].slaveof.value in s.nodes)
    && (forall n :: n in s.nodes ==> |s.nodes[n].slots| == SLOTS / 8)
  }

  /** The epochs in a packet's header (cluster.c:1619-1630). */
  function Header(s: Server, from: Name, currentEpoch: nat, configEpoch: nat): Server
    requires from in s.nodes
  {
    var e := if currentEpoch > s.currentEpoch then currentEpoch else s.currentEpoch;
    var n := s.nodes[from];
    s.(currentEpoch := e,
       nodes := if configEpoch > n.configEpoch then s.nodes[from := n.(configEpoch := configEpoch)] else s.nodes)
  }

  // ---- Voting ----

  /** Slot `j` is claimed by a slave whose configEpoch is older than the slot's owner. */
  predicate OutdatedSlot(s: Server, r: Request, j: nat)
    requires |s.slots| == SLOTS && |r.slots| == SLOTS / 8 && j < SLOTS
    requires s.slots[j].Some? ==> s.slots[j].value in s.nodes
  {
    TestBit(r.slots, j) && s.slots[j].Some? && s.nodes[s.slots[j].value].configEpoch > r.configEpoch
  }

  /** When `clusterSendFailoverAuthIfNeeded` votes (cluster.c:2521-2613). */
  ghost predicate Grants(s: Server, me: Name, r: Request, now: int, nodeTimeout: nat)
    requires ServerOK(s, me) && r.from in s.nodes && |r.slots| == SLOTS / 8
  {
    var n := s.nodes[r.from];
    && s.nodes[me].isMaster && s.nodes[me].numslots != 0
    && r.currentEpoch >= s.currentEpoch
    && s.lastVoteEpoch != s.currentEpoch
    && !n.isMaster && n.slaveof.Some?
    && (s.nodes[n.slaveof.value].failed || r.force)
    && now - s.nodes[n.slaveof.value].votedTime >= nodeTimeout * 2
    && forall j: nat :: j < SLOTS ==> !OutdatedSlot(s, r, j)
  }

  /** The vote: remembered for the epoch, and for the master it is about (cluster.c:2616-2618). */
  function Voted(s: Server, master: Name, now: int): Server
    requires master in s.nodes
  {
    s.(lastVoteEpoch := s.currentEpoch, nodes := s.nodes[master := s.nodes[master].(votedTime := now)])
  }

  ghost function Vote(s: Server, me: Name, r: Request, now: int, nodeTimeout: nat): (Server, Option<Ack>)
    requires ServerOK(s, me) && r.from in s.nodes && |r.slots| == SLOTS / 8
  {
    if Grants(s, me, r, now, nodeTimeout) then
      (Voted(s, s.nodes[r.from].slaveof.value, now), Some(Ack(me, r.from, s.currentEpoch, s.nodes[me].configEpoch)))
    else (s, None)
  }

  /** A FAILOVER_AUTH_ACK (cluster.c:1945-1957): counted if the sender serves slots and its epoch is not
      older than the election. */
  function CountAck(s: Server, a: Ack): Server
    requires a.from in s.nodes
  {
    if s.nodes[a.from].isMaster && s.nodes[a.from].numslots > 0 && a.currentEpoch >= s.authEpoch
    then s.(authCount := s.authCount + 1) else s
  }

  // ---- The slave's side ----

  function Quorum(s: Server): nat { s.size / 2 + 1 }

  function DataAge(e: Surroundings): int {
    var age := if e.connected then e.sinceInteraction * 1000 else e.sinceDown * 1000;
    if age > e.nodeTimeout then age - e.nodeTimeout else age
  }

  predicate ManualFailover(s: Server) { s.mfEnd != 0 && s.mfCanStart }

  predicate MayFailover(s: Server, me: Name)
    requires me in s.nodes && (s.nodes[me].slaveof.Some? ==> s.nodes[me].slaveof.value in s.nodes)
  {
    && !s.nodes[me].isMaster && s.nodes[me].slaveof.Some?
    && var m := s.nodes[s.nodes[me].slaveof.value];
      (m.failed || ManualFailover(s)) && m.numslots != 0
  }

  predicate TooOld(s: Server, e: Surroundings) {
    e.validityFactor != 0 && !ManualFailover(s) &&
    DataAge(e) > e.pingPeriod * 1000 + e.nodeTimeout * e.validityFactor
  }

  function AuthTimeout(e: Surroundings): int { if e.nodeTimeout * 2 < 2000 then 2000 else e.nodeTimeout * 2 }

  /** Set up the next attempt: the count is cleared here (cluster.c:2827-2842). */
  function Schedule(s: Server, e: Surroundings): Server {
    s.(authTime := if s.mfEnd != 0 then e.now else e.now + 500 + e.random % 500 + e.rank * 1000,
       authCount := 0, authSent := false, authRank := if s.mfEnd != 0 then 0 else e.rank)
  }

  /** More delay if other slaves turn out to be ahead (cluster.c:2861-2874). */
  function Rerank(s: Server, e: Surroundings): Server {
    if !s.authSent && s.mfEnd == 0 && e.rank > s.authRank
    then s.(authTime := s.authTime + (e.rank - s.authRank) * 1000, authRank := e.rank) else s
  }

  /** Ask for votes under a new epoch (cluster.c:2889-2901). */
  function AskForVotes(s: Server): Server {
    s.(currentEpoch := s.currentEpoch + 1, authEpoch := s.currentEpoch + 1, authSent := true)
  }

  /** The winner's configEpoch becomes the election's epoch (cluster.c:2910-2911). */
  function TakeEpoch(s: Server, me: Name): Server
    requires me in s.nodes
  {
    if s.nodes[me].configEpoch < s.authEpoch
    then s.(nodes := s.nodes[me := s.nodes[me].(configEpoch := s.authEpoch)]) else s
  }

  /** Wait, give up, ask for votes, or look whether the quorum is reached (cluster.c:2858-2922). */
  function AttemptStep(s: Server, me: Name, e: Surroundings, age: int, timeout: int): (Server, Outcome)
    requires me in s.nodes
  {
    var r := Rerank(s, e);
    if e.now < r.authTime then (r, Delayed)
    else if age > timeout then (r, Expired)
    else if !r.authSent then (AskForVotes(r), Requested)
    else if r.authCount >= Quorum(r) then (TakeEpoch(r, me), Won)
    else (r, WaitingVotes)
  }

  /** `clusterHandleSlaveFailover` (cluster.c:2757-2922), up to taking over the slots. */
  function HandleFailover(s: Server, me: Name, e: Surroundings): (Server, Outcome)
    requires me in s.nodes && (s.nodes[me].slaveof.Some? ==> s.nodes[me].slaveof.value in s.nodes)
  {
    var age := e.now - s.authTime;
    if !MayFailover(s, me) then (s, Idle)
    else if TooOld(s, e) then (s, DataTooOld)
    else if age > AuthTimeout(e) * 2 then (Schedule(s, e), Scheduled)
    else AttemptStep(s, me, e, age, AuthTimeout(e))
  }

  // ---- Manual failover ----

  /** `resetManualFailover` (cluster.c:3050-3059). */
  function ResetManual(s: Server): Server {
    s.(mfEnd := 0, mfCanStart := false, mfMasterOffset := 0)
  }

  /** CLUSTER FAILOVER, with or without FORCE, on a slave with a known master (cluster.c:4277-4296). */
  function StartManual(s: Server, now: int, force: bool): Server {
    ResetManual(s).(mfEnd := now + MF_TIMEOUT, mfCanStart := force)
  }

  /** `manualFailoverCheckTimeout` (cluster.c:3062-3067). */
  function CheckTimeout(s: Server, now: int): Server {
    if s.mfEnd != 0 && s.mfEnd < now then ResetManual(s) else s
  }

  /** `clusterHandleManualFailover` (cluster.c:3071-3089): start once the master's offset is reached. */
  function HandleManual(s: Server, offset: int): Server {
    if s.mfEnd != 0 && !s.mfCanStart && s.mfMasterOffset != 0 && s.mfMasterOffset == offset
    then s.(mfCanStart := true) else s
  }

  /** The end of `clusterCron` (cluster.c:3314-3319). */
  function Cron(s: Server, me: Name, e: Surroundings): (Server, Outcome)
    requires me in s.nodes && (s.nodes[me].slaveof.Some? ==> s.nodes[me].slaveof.value in s.nodes)
  {
    var t := CheckTimeout(s, e.now);
    if t.nodes[me].isMaster then (t, Idle) else HandleFailover(HandleManual(t, e.offset), me, e)
  }

  /** The failover handler runs in the cron, and before sleeping when a vote came in (cluster.c:3341-3342). */
  function Turn(s: Server, me: Name, e: Surroundings, cron: bool): (Server, Outcome)
    requires me in s.nodes && (s.nodes[me].slaveof.Some? ==> s.nodes[me].slaveof.value in s.nodes)
  {
    if cron then Cron(s, me, e) else HandleFailover(s, me, e)
  }

  function RequestOf(s: Server, me: Name): Request
    requires me in s.nodes && (s.nodes[me].slaveof.Some? ==> s.nodes[me].slaveof.value in s.nodes)
  {
    var m := if !s.nodes[me].isMaster && s.nodes[me].slaveof.Some? then s.nodes[me].slaveof.value else me;
    Request(me, s.currentEpoch, s.nodes[m].configEpoch, s.nodes[m].slots, s.mfEnd != 0)
  }

  /** The node's own state, updated in place. */
  class Cluster {
    const myself: Name
    var s: Server

    constructor (name: Name, server: Server)
      requires ServerOK(server, name)
      ensures myself == name && s == server && Valid()
    {
      myself, s := name, server;
    }

    ghost predicate Valid()
      reads this
    {
      ServerOK(s, myself)
    }

    /** The slots loop (cluster.c:2596-2613). */
    method AnyOutdatedSlot(r: Request) returns (b: bool)
      requires Valid() && |r.slots| == SLOTS / 8
      ensures b <==> exists j: nat :: j < SLOTS && OutdatedSlot(s, r, j)
    {
      for j := 0 to SLOTS
        invariant forall k: nat :: k < j ==> !OutdatedSlot(s, r, k)
      {
        if !TestBit(r.slots, j) {
          continue;
        }
        if s.slots[j].None? || s.nodes[s.slots[j].value].configEpoch <= r.configEpoch {
          continue;
        }
        assert OutdatedSlot(s, r, j);
        return true;
      }
      return false;
    }

    /** `clusterSendFailoverAuthIfNeeded` (cluster.c:2521-2621). */
    method SendFailoverAuthIfNeeded(r: Request, now: int, nodeTimeout: nat) returns (ack: Option<Ack>)
      requires Valid() && r.from in s.nodes && |r.slots| == SLOTS / 8
      modifies this
      ensures Valid() && (s, ack) == Vote(old(s), myself, r, now, nodeTimeout)
    {
      hide TestBit;
      hide OutdatedSlot;
      var node := s.nodes[r.from];
      if !s.nodes[myself].isMaster || s.nodes[myself].numslots == 0 {
        return None;
      }
      if r.currentEpoch < s.currentEpoch {
        return None;
      }
      if s.lastVoteEpoch == s.currentEpoch {
        return None;
      }
      if node.isMaster || node.slaveof.None? || (!s.nodes[node.slaveof.value].failed && !r.force) {
        return None;
      }
      if now - s.nodes[node.slaveof.value].votedTime < nodeTimeout * 2 {
        return None;
      }
      var outdated := AnyOutdatedSlot(r);
      if outdated {
        return None;
      }
      ack := Some(Ack(myself, r.from, s.currentEpoch, s.nodes[myself].configEpoch));
      var master := node.slaveof.value;
      s := s.(lastVoteEpoch := s.currentEpoch, nodes := s.nodes[master := s.nodes[master].(votedTime := now)]);
    }

    /** The epochs in the header of a packet from a known node (cluster.c:1619-1630). */
    method ReceiveHeader(from: Name, currentEpoch: nat, configEpoch: nat)
      requires Valid() && from in s.nodes
      modifies this
      ensures Valid() && s == Header(old(s), from, currentEpoch, configEpoch)
      ensures s.currentEpoch >= currentEpoch && s.currentEpoch in {currentEpoch, old(s).currentEpoch}
      ensures s.nodes[from].configEpoch >= configEpoch
      ensures s.nodes[from].configEpoch in {configEpoch, old(s).nodes[from].configEpoch}
    {
      if currentEpoch > s.currentEpoch {
        s := s.(currentEpoch := currentEpoch);
      }
      var n := s.nodes[from];
      if configEpoch > n.configEpoch {
        s := s.(nodes := s.nodes[from := n.(configEpoch := configEpoch)]);
      }
    }

    method ReceiveAck(a: Ack)
      requires Valid() && a.from in s.nodes
      modifies this
      ensures Valid() && s == CountAck(Header(old(s), a.from, a.currentEpoch, a.configEpoch), a)
    {
      ReceiveHeader(a.from, a.currentEpoch, a.configEpoch);
      hide Header;
      if s.nodes[a.from].isMaster && s.nodes[a.from].numslots > 0 && a.currentEpoch >= s.authEpoch {
        s := s.(authCount := s.authCount + 1);
      }
    }

    /** One look at the current attempt (cluster.c:2858-2922). */
    method Attempt(e: Surroundings, age: int, timeout: int) returns (o: Outcome)
      requires Valid()
      modifies this
      ensures Valid() && (s, o) == AttemptStep(old(s), myself, e, age, timeout)
    {
      if !s.authSent && s.mfEnd == 0 {
        if e.rank > s.authRank {
          s := s.(authTime := s.authTime + (e.rank - s.authRank) * 1000, authRank := e.rank);
        }
      }
      if e.now < s.authTime {
        return Delayed;
      }
      if age > timeout {
        return Expired;
      }
      if !s.authSent {
        s := s.(currentEpoch := s.currentEpoch + 1);
        s := s.(authEpoch := s.currentEpoch);
        s := s.(authSent := true);
        return Requested;
      }
      if s.authCount >= s.size / 2 + 1 {
        if s.nodes[myself].configEpoch < s.authEpoch {
          s := s.(nodes := s.nodes[myself := s.nodes[myself].(configEpoch := s.authEpoch)]);
        }
        return Won;
      }
      return WaitingVotes;
    }

    /** `clusterHandleSlaveFailover` (cluster.c:2757-2922). */
    method HandleSlaveFailover(e: Surroundings) returns (o: Outcome)
      requires Valid()
      modifies this
      ensures Valid() && (s, o) == HandleFailover(old(s), myself, e)
    {
      var age := e.now - s.authTime;
      var manual := s.mfEnd != 0 && s.mfCanStart;
      var timeout: int := e.nodeTimeout * 2;
      if timeout < 2000 {
        timeout := 2000;
      }
      var retry := timeout * 2;
      var me := s.nodes[myself];
      if me.isMaster || me.slaveof.None? || (!s.nodes[me.slaveof.value].failed && !manual) ||
         s.nodes[me.slaveof.value].numslots == 0 {
        return Idle;
      }
      var dataAge := if e.connected then e.sinceInteraction * 1000 else e.sinceDown * 1000;
      if dataAge > e.nodeTimeout {
        dataAge := dataAge - e.nodeTimeout;
      }
      if e.validityFactor != 0 && dataAge > e.pingPeriod * 1000 + e.nodeTimeout * e.validityFactor {
        if !manual {
          return DataTooOld;
        }
      }
      if age > retry {
        s := s.(authTime := e.now + 500 + e.random % 500, authCount := 0, authSent := false, authRank := e.rank);
        s := s.(authTime := s.authTime + s.authRank * 1000);
        if s.mfEnd != 0 {
          s := s.(authTime := e.now, authRank := 0);
        }
        return Scheduled;
      }
      o := Attempt(e, age, timeout);
    }

    method ResetManualFailover()
      requires Valid()
      modifies this
      ensures Valid() && s == ResetManual(old(s))
    {
      s := s.(mfEnd := 0);
      s := s.(mfCanStart := false);
      s := s.(mfMasterOffset := 0);
    }

    /** CLUSTER FAILOVER [FORCE] (cluster.c:4248-4300): refused on a master, without a known master, and
        without FORCE when the master is down; `linked` says whether there is a link to it. */
    method FailoverCommand(now: int, force: bool, linked: bool) returns (ok: bool)
      requires Valid()
      modifies this
      ensures Valid()
      ensures var me := old(s).nodes[myself];
              ok <==> !me.isMaster && me.slaveof.Some? &&
                      (force || (!old(s).nodes[me.slaveof.value].failed && linked))
      ensures s == if ok then StartManual(old(s), now, force) else old(s)
      ensures ok ==> s.mfEnd == now + 5000 && s.mfCanStart == force && s.mfMasterOffset == 0
    {
      var me := s.nodes[myself];
      if me.isMaster {
        return false;
      } else if me.slaveof.None? {
        return false;
      } else if !force && (s.nodes[me.slaveof.value].failed || !linked) {
        return false;
      }
      ResetManualFailover();
      s := s.(mfEnd := now + MF_TIMEOUT);
      if force {
        s := s.(mfCanStart := true);
      }
      return true;
    }

    /** The failover part of `clusterCron` (cluster.c:3314-3319): a manual failover past its time is
        given up before the election is looked at. */
    method ClusterCron(e: Surroundings) returns (o: Outcome)
      requires Valid()
      modifies this
      ensures Valid() && (s, o) == Cron(old(s), myself, e)
    {
      if s.mfEnd != 0 && s.mfEnd < e.now {
        ResetManualFailover();
      }
      if s.nodes[myself].isMaster {
        return Idle;
      }
      if s.mfEnd != 0 && !s.mfCanStart && s.mfMasterOffset != 0 {
        if s.mfMasterOffset == e.offset {
          s := s.(mfCanStart := true);
        }
      }
      o := HandleSlaveFailover(e);
    }
  }
}
