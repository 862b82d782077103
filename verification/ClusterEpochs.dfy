/** Config epoch collisions of cluster.c, for masters whose role does not change and whose slots are
    disjoint: what one node does with the epochs in a packet. Epochs are unbounded here. */
module ClusterEpochs {
  import opened ClusterSlots

  const NAMELEN := 40

  /** `memcmp` on node names. */
  function Memcmp(a: Name, b: Name): int
    requires |a| == |b|
  {
    if a == [] then 0 else if a[0] != b[0] then a[0] as int - b[0] as int else Memcmp(a[1..], b[1..])
  }

  lemma {:induction false} MemcmpFlips(a: Name, b: Name)
    requires |a| == |b|
    ensures Memcmp(a, b) == -Memcmp(b, a)
  {
    if a != [] {
      MemcmpFlips(a[1..], b[1..]);
    }
  }

  /** A node's view: its currentEpoch and the configEpoch it knows for every node, itself included. */
  datatype Local = Local(currentEpoch: nat, epochs: map<Name, nat>)

  datatype Packet =
    | Ping(from: Name, currentEpoch: nat, configEpoch: nat)
    | Other(from: Name, currentEpoch: nat, configEpoch: nat)
    | Update(from: Name, currentEpoch: nat, configEpoch: nat, about: Name, epoch: nat)

  function Max(a: nat, b: nat): nat { if a > b then a else b }

  /** The epochs in the header of any packet (cluster.c:1619-1630). */
  function Header(s: Local, p: Packet): Local
    requires p.from in s.epochs
  {
    Local(Max(s.currentEpoch, p.currentEpoch), s.epochs[p.from := Max(s.epochs[p.from], p.configEpoch)])
  }

  /** `clusterHandleConfigEpochCollision` between two masters (cluster.c:1066-1081). */
  predicate Bumps(s: Local, me: Name, sender: Name)
    requires me in s.epochs && sender in s.epochs && |me| == |sender|
  {
    s.epochs[sender] == s.epochs[me] && Memcmp(sender, me) > 0
  }

  function Collide(s: Local, me: Name, sender: Name): Local
    requires me in s.epochs && sender in s.epochs && |me| == |sender|
  {
    if Bumps(s, me, sender) then Local(s.currentEpoch + 1, s.epochs[me := s.currentEpoch + 1]) else s
  }

  /** The part of `clusterProcessPacket` that changes epochs. */
  function Receive(s: Local, me: Name, p: Packet): Local
    requires me in s.epochs && p.from in s.epochs && |me| == |p.from|
  {
    var h := Header(s, p);
    match p
    case Ping(_, _, e) => if e == h.epochs[me] then Collide(h, me, p.from) else h
    case Other(_, _, _) => h
    case Update(_, _, _, n, e) => if n !in h.epochs || h.epochs[n] >= e then h else h.(epochs := h.epochs[n := e])
  }

  /** A packet makes the receiver take a new configEpoch. */
  predicate Bumped(s: Local, me: Name, p: Packet)
    requires me in s.epochs && p.from in s.epochs && |me| == |p.from|
  {
    p.Ping? && p.configEpoch == Header(s, p).epochs[me] && Bumps(Header(s, p), me, p.from)
  }

  /** What a node knows after a packet: the newest of what it knew and what the packet says, for every
      node; and its own new epoch if it gave way. */
  lemma KnowsNewest(s: Local, me: Name, p: Packet, x: Name)
    requires me in s.epochs && p.from in s.epochs && |me| == |p.from| && x in s.epochs
    ensures var n := Receive(s, me, p);
      && n.epochs.Keys == s.epochs.Keys
      && (Bumped(s, me, p) && x == me ==> n.epochs[x] == n.currentEpoch)
      && (!(Bumped(s, me, p) && x == me) ==>
            && n.epochs[x] >= s.epochs[x]
            && (p.from == x ==> n.epochs[x] >= p.configEpoch)
            && (p.Update? && p.about == x ==> n.epochs[x] >= p.epoch)
            && (n.epochs[x] == s.epochs[x] || (p.from == x && n.epochs[x] == p.configEpoch) ||
                (p.Update? && p.about == x && n.epochs[x] == p.epoch)))
  {
    hide Memcmp;
  }

  /** The node's own state, updated in place. */
  class Cluster {
    const myself: Name
    var currentEpoch: nat
    var epochs: map<Name, nat>

    constructor (name: Name, known: map<Name, nat>, epoch: nat)
      requires |name| == NAMELEN && name in known && forall n :: n in known ==> |n| == NAMELEN
      ensures Valid() && myself == name && State() == Local(epoch, known)
    {
      myself, currentEpoch, epochs := name, epoch, known;
    }

    ghost predicate Valid()
      reads this
    {
      myself in epochs && forall n :: n in epochs ==> |n| == NAMELEN
    }

    ghost function State(): Local
      reads this
    {
      Local(currentEpoch, epochs)
    }

    /** memcmp, byte by byte. */
    method Compare(a: Name, b: Name) returns (r: int)
      requires |a| == |b|
      ensures r == Memcmp(a, b)
    {
      var i := 0;
      while i < |a| && a[i] == b[i]
        invariant i <= |a|
        invariant Memcmp(a, b) == Memcmp(a[i..], b[i..])
      {
        assert a[i..][1..] == a[i + 1..] && b[i..][1..] == b[i + 1..];
        i := i + 1;
      }
      r := if i == |a| then 0 else a[i] as int - b[i] as int;
    }

    method HandleConfigEpochCollision(sender: Name)
      requires Valid() && sender in epochs
      modifies this
      ensures Valid() && State() == Collide(old(State()), myself, sender)
      ensures if old(epochs)[sender] == old(epochs)[myself] && Memcmp(sender, myself) > 0
              then currentEpoch == old(currentEpoch) + 1 && epochs == old(epochs)[myself := old(currentEpoch) + 1]
              else currentEpoch == old(currentEpoch) && epochs == old(epochs)
    {
      if epochs[sender] != epochs[myself] {
        return;
      }
      var c := Compare(sender, myself);
      if c <= 0 {
        return;
      }
      currentEpoch := currentEpoch + 1;
      epochs := epochs[myself := currentEpoch];
    }

    method ProcessPacket(p: Packet)
      requires Valid()
      modifies this
      ensures Valid()
      ensures p.from !in old(epochs) ==> State() == old(State())
      ensures p.from in old(epochs) ==> State() == Receive(old(State()), myself, p)
    {
      if p.from !in epochs {
        return;
      }
      if p.currentEpoch > currentEpoch {
        currentEpoch := p.currentEpoch;
      }
      if p.configEpoch > epochs[p.from] {
        epochs := epochs[p.from := p.configEpoch];
      }
      assert State() == Header(old(State()), p);
      match p {
        case Ping(_, _, e) =>
          if e == epochs[myself] {
            HandleConfigEpochCollision(p.from);
          }
        case Other(_, _, _) =>
        case Update(_, _, _, n, e) =>
          if n !in epochs || epochs[n] >= e {
            return;
          }
          epochs := epochs[n := e];
      }
    }
  }
}

/** All the masters together: any packet ever sent may be delivered to anyone, late, repeatedly or
    never. */
module ClusterEpochRun {
  import opened ClusterSlots
  import opened ClusterEpochs
  import opened Sets

  /** Node `i` is `names[i]`, greatest name first. `held[i]` collects the configEpochs node `i` has had
      and `bumps[i]` counts the collisions it gave way to. */
  datatype System = System(nodes: seq<Local>, sent: set<Packet>, held: seq<set<nat>>, bumps: seq<nat>)

  ghost predicate Names(names: seq<Name>) {
    && (forall i :: 0 <= i < |names| ==> |names[i]| == NAMELEN)
    && (forall i, j :: 0 <= i < j < |names| ==> Memcmp(names[i], names[j]) > 0)
  }

  ghost predicate Shape(s: System, names: seq<Name>) {
    && Names(names)
    && |s.nodes| == |s.held| == |s.bumps| == |names|
    && (forall i, j :: 0 <= i < |names| && 0 <= j < |names| ==> names[j] in s.nodes[i].epochs)
  }

  function Config(s: System, names: seq<Name>, i: nat): nat
    requires i < |names| && |s.nodes| == |names| && names[i] in s.nodes[i].epochs
  {
    s.nodes[i].epochs[names[i]]
  }

  /** Node `i` sends its own epochs, or an UPDATE about what it knows of node `j`. */
  ghost predicate Sends(s: System, names: seq<Name>, i: nat, p: Packet)
    requires Shape(s, names) && i < |names|
  {
    && p.from == names[i] && p.currentEpoch == s.nodes[i].currentEpoch && p.configEpoch == Config(s, names, i)
    && (p.Update? ==> p.about in names && p.epoch == s.nodes[i].epochs[p.about])
  }

  datatype Event = Send(i: nat, p: Packet) | Deliver(r: nat, p: Packet)

  ghost predicate Allowed(s: System, names: seq<Name>, e: Event)
    requires Shape(s, names)
  {
    match e
    case Send(i, p) => i < |names| && Sends(s, names, i, p)
    case Deliver(r, p) => r < |names| && p in s.sent && p.from in names
  }

  ghost function Do(s: System, names: seq<Name>, e: Event): System
    requires Shape(s, names) && Allowed(s, names, e)
  {
    match e
    case Send(i, p) => s.(sent := s.sent + {p})
    case Deliver(r, p) =>
      var n := Receive(s.nodes[r], names[r], p);
      var nodes := s.nodes[r := n];
      if Bumped(s.nodes[r], names[r], p) then
        System(nodes, s.sent, s.held[r := s.held[r] + {n.epochs[names[r]]}], s.bumps[r := s.bumps[r] + 1])
      else s.(nodes := nodes)
  }

  // ---- The invariant ----

  /** `currentEpoch` is at least every configEpoch in the table, and no table is ahead of the node. */
  ghost predicate TablesOK(s: System, names: seq<Name>)
    requires Shape(s, names)
  {
    forall i, j :: 0 <= i < |names| && 0 <= j < |names| ==>
      s.nodes[i].epochs[names[j]] <= s.nodes[i].currentEpoch && s.nodes[i].epochs[names[j]] <= Config(s, names, j)
  }

  ghost predicate PacketOK(s: System, names: seq<Name>, p: Packet)
    requires Shape(s, names)
  {
    && p.configEpoch <= p.currentEpoch
    && (forall j :: 0 <= j < |names| && p.from == names[j] ==> p.configEpoch in s.held[j])
    && (p.Update? ==> p.epoch <= p.currentEpoch &&
                      forall j :: 0 <= j < |names| && p.about == names[j] ==> p.epoch <= Config(s, names, j))
  }

  /** A node's past configEpochs are below its present one, and each was also held by a node with a
      greater name: the one it gave way to. */
  ghost predicate HeldOK(s: System, names: seq<Name>, i: nat)
    requires Shape(s, names) && i < |names|
  {
    && Config(s, names, i) in s.held[i]
    && (forall v :: v in s.held[i] ==> v <= Config(s, names, i))
    && (forall v :: v in s.held[i] && v != Config(s, names, i) ==> exists j :: 0 <= j < i && v in s.held[j])
    && |s.held[i]| == s.bumps[i] + 1
  }

  ghost predicate Inv(s: System, names: seq<Name>) {
    && Shape(s, names)
    && TablesOK(s, names)
    && (forall p :: p in s.sent ==> PacketOK(s, names, p))
    && (forall i :: 0 <= i < |names| ==> HeldOK(s, names, i))
  }

  /** Any start: nothing sent, tables not ahead of the nodes, currentEpoch at least every known
      configEpoch. */
  ghost predicate Start(s: System, names: seq<Name>) {
    && Shape(s, names) && TablesOK(s, names) && s.sent == {}
    && (forall i :: 0 <= i < |names| ==> s.held[i] == {Config(s, names, i)} && s.bumps[i] == 0)
  }

  lemma StartInv(s: System, names: seq<Name>)
    requires Start(s, names)
    ensures Inv(s, names)
  {
  }

  lemma NamesDistinct(names: seq<Name>, i: nat, j: nat)
    requires Names(names) && i < |names| && j < |names| && i != j
    ensures names[i] != names[j]
    ensures Memcmp(names[j], names[i]) > 0 <==> j < i
  {
    MemcmpFlips(names[i], names[j]);
  }

  /** Node `n` of rank `r` knows nothing newer than its own currentEpoch, nor than the others. */
  ghost predicate LocalOK(s: System, names: seq<Name>, r: nat, n: Local)
    requires Shape(s, names) && r < |names|
  {
    forall j :: 0 <= j < |names| ==>
      && names[j] in n.epochs
      && n.epochs[names[j]] <= n.currentEpoch
      && (j != r ==> n.epochs[names[j]] <= Config(s, names, j))
  }

  lemma HeaderOK(s: System, names: seq<Name>, r: nat, f: nat, p: Packet)
    requires Shape(s, names) && TablesOK(s, names) && r < |names| && f < |names| && p.from == names[f]
    requires p.configEpoch <= p.currentEpoch && p.configEpoch <= Config(s, names, f)
    ensures LocalOK(s, names, r, Header(s.nodes[r], p))
    ensures Header(s.nodes[r], p).epochs[names[r]] == Config(s, names, r)
  {
    hide Memcmp;
    forall j | 0 <= j < |names| && j != f ensures names[j] != names[f] {
      NamesDistinct(names, j, f);
    }
  }

  /** What receiving does to one node. */
  lemma ReceiveOK(s: System, names: seq<Name>, r: nat, f: nat, p: Packet)
    requires Inv(s, names) && r < |names| && f < |names| && p in s.sent && p.from == names[f]
    ensures var n := Receive(s.nodes[r], names[r], p);
            var b := Bumped(s.nodes[r], names[r], p);
      && LocalOK(s, names, r, n)
      && (if b then n.epochs[names[r]] > Config(s, names, r) else n.epochs[names[r]] == Config(s, names, r))
      && (b ==> f < r && Config(s, names, r) in s.held[f])
  {
    var me := names[r];
    var h := Header(s.nodes[r], p);
    assert PacketOK(s, names, p);
    assert HeldOK(s, names, f);
    HeaderOK(s, names, r, f, p);
    forall j | 0 <= j < |names| && j != r ensures names[j] != names[r] {
      NamesDistinct(names, j, r);
    }
    if Bumped(s.nodes[r], me, p) {
      if r == f {
        MemcmpFlips(me, me);
        assert false;
      }
      NamesDistinct(names, r, f);
    }
    hide Memcmp;
    hide Header;
  }

  lemma SendInv(s: System, names: seq<Name>, i: nat, p: Packet)
    requires Inv(s, names) && Allowed(s, names, Send(i, p))
    ensures Inv(Do(s, names, Send(i, p)), names)
  {
    var t := Do(s, names, Send(i, p));
    assert HeldOK(s, names, i);
    hide Memcmp;
    hide Names;
    forall j | 0 <= j < |names| ensures HeldOK(t, names, j) {
      assert HeldOK(s, names, j);
    }
    forall q | q in t.sent ensures PacketOK(t, names, q) {
      if q in s.sent {
        assert PacketOK(s, names, q);
      } else {
        forall j | 0 <= j < |names| && p.from == names[j] ensures j == i {
          SameName(names, i, j);
        }
        if p.Update? {
          var a :| 0 <= a < |names| && names[a] == p.about;
          assert s.nodes[i].epochs[names[a]] <= s.nodes[i].currentEpoch;
        }
      }
    }
  }

  lemma SameName(names: seq<Name>, i: nat, j: nat)
    requires Names(names) && i < |names| && j < |names| && names[i] == names[j]
    ensures i == j
  {
    if i != j {
      NamesDistinct(names, i, j);
    }
  }

  /** Taking a new configEpoch, greater than any held, because a greater name holds the old one. */
  lemma BumpHeld(s: System, t: System, names: seq<Name>, r: nat, f: nat)
    requires Shape(s, names) && Shape(t, names) && f < r < |names|
    requires forall i :: 0 <= i < |names| ==> HeldOK(s, names, i)
    requires Config(s, names, r) in s.held[f] && Config(t, names, r) > Config(s, names, r)
    requires t.held == s.held[r := s.held[r] + {Config(t, names, r)}] && t.bumps == s.bumps[r := s.bumps[r] + 1]
    requires forall i :: 0 <= i < |names| && i != r ==> Config(t, names, i) == Config(s, names, i)
    ensures forall i :: 0 <= i < |names| ==> HeldOK(t, names, i)
  {
    forall i | 0 <= i < |names| ensures HeldOK(t, names, i) {
      assert HeldOK(s, names, i);
      hide Shape;
      if i == r {
        assert Config(t, names, r) !in s.held[r];
        forall v | v in t.held[i] && v != Config(t, names, i) ensures exists j :: 0 <= j < i && v in t.held[j] {
          if v == Config(s, names, i) {
            assert v in t.held[f];
          } else {
            var j :| 0 <= j < i && v in s.held[j];
            assert v in t.held[j];
          }
        }
      } else {
        forall v | v in t.held[i] && v != Config(t, names, i) ensures exists j :: 0 <= j < i && v in t.held[j] {
          var j :| 0 <= j < i && v in s.held[j];
          assert v in t.held[j];
        }
      }
    }
  }

  /** The rest of the invariant after node `r` changed to one that knows nothing too new. */
  lemma DeliverRest(s: System, t: System, names: seq<Name>, r: nat, n: Local)
    requires Inv(s, names) && r < |names| && LocalOK(s, names, r, n) && n.epochs[names[r]] >= Config(s, names, r)
    requires t.nodes == s.nodes[r := n] && t.sent == s.sent && |t.held| == |t.bumps| == |names|
    requires forall i :: 0 <= i < |names| ==> s.held[i] <= t.held[i]
    ensures Shape(t, names) && TablesOK(t, names)
    ensures forall i :: 0 <= i < |names| && i != r ==> Config(t, names, i) == Config(s, names, i)
    ensures Config(t, names, r) == n.epochs[names[r]]
    ensures forall p :: p in t.sent ==> PacketOK(t, names, p)
  {
    hide Names;
    forall p | p in t.sent ensures PacketOK(t, names, p) {
      assert PacketOK(s, names, p);
    }
  }

  lemma DeliverInv(s: System, names: seq<Name>, r: nat, p: Packet)
    requires Inv(s, names) && Allowed(s, names, Deliver(r, p))
    ensures Inv(Do(s, names, Deliver(r, p)), names)
  {
    var t := Do(s, names, Deliver(r, p));
    var f :| 0 <= f < |names| && names[f] == p.from;
    ReceiveOK(s, names, r, f, p);
    var n := Receive(s.nodes[r], names[r], p);
    DeliverRest(s, t, names, r, n);
    if Bumped(s.nodes[r], names[r], p) {
      BumpHeld(s, t, names, r, f);
    } else {
      forall i | 0 <= i < |names| ensures HeldOK(t, names, i) {
        assert HeldOK(s, names, i);
      }
    }
  }

  ghost predicate Run(s: System, names: seq<Name>, es: seq<Event>, t: System)
    decreases |es|
  {
    if es == [] then t == s
    else Shape(s, names) && Allowed(s, names, es[0]) && Run(Do(s, names, es[0]), names, es[1..], t)
  }

  lemma {:induction false} RunInv(s: System, names: seq<Name>, es: seq<Event>, t: System)
    requires Inv(s, names) && Run(s, names, es, t)
    ensures Inv(t, names)
    decreases |es|
  {
    if es != [] {
      match es[0] {
        case Send(i, p) => SendInv(s, names, i, p);
        case Deliver(r, p) => DeliverInv(s, names, r, p);
      }
      hide Inv;
      RunInv(Do(s, names, es[0]), names, es[1..], t);
    }
  }

  /** A delivery makes a node take a new configEpoch exactly if it is a ping that tells of the node's own
      configEpoch, known to be no older than the sender's, from a greater name. The new one is the
      successor of the greatest epoch the node knows. */
  lemma TakesNext(s: System, names: seq<Name>, r: nat, p: Packet)
    requires Inv(s, names) && Allowed(s, names, Deliver(r, p))
    ensures var t := Do(s, names, Deliver(r, p));
            var m, n := s.nodes[r], t.nodes[r];
      && Shape(t, names)
      && (t.bumps[r] == s.bumps[r] + 1 <==>
            p.Ping? && p.configEpoch == Config(s, names, r) && m.epochs[p.from] <= p.configEpoch &&
            |p.from| == |names[r]| && Memcmp(p.from, names[r]) > 0)
      && (t.bumps[r] == s.bumps[r] + 1 ==>
            && n.currentEpoch - 1 in {m.currentEpoch, p.currentEpoch}
            && n.currentEpoch > m.currentEpoch && n.currentEpoch > p.currentEpoch
            && Config(t, names, r) == n.currentEpoch
            && forall j :: 0 <= j < |names| ==> m.epochs[names[j]] < n.currentEpoch)
      && (t.bumps[r] != s.bumps[r] + 1 ==>
            t.bumps[r] == s.bumps[r] && Config(t, names, r) == Config(s, names, r) &&
            n.currentEpoch >= m.currentEpoch && n.currentEpoch >= p.currentEpoch &&
            n.currentEpoch in {m.currentEpoch, p.currentEpoch})
  {
    DeliverInv(s, names, r, p);
    var f :| 0 <= f < |names| && names[f] == p.from;
    ReceiveOK(s, names, r, f, p);
    ReceiveIs(s.nodes[r], names[r], p);
    if r == f {
      MemcmpFlips(names[r], names[r]);
    }
    hide Receive;
    hide Bumped;
    hide Memcmp;
    hide PacketOK;
    hide HeldOK;
  }

  lemma ReceiveIs(s: Local, me: Name, p: Packet)
    requires me in s.epochs && p.from in s.epochs && |me| == |p.from|
    ensures var n := Receive(s, me, p);
      && (p.from != me ==>
            (Bumped(s, me, p) <==>
             p.Ping? && p.configEpoch == s.epochs[me] && s.epochs[p.from] <= p.configEpoch && Memcmp(p.from, me) > 0))
      && n.currentEpoch == Max(s.currentEpoch, p.currentEpoch) + (if Bumped(s, me, p) then 1 else 0)
      && (Bumped(s, me, p) ==> me in n.epochs && n.epochs[me] == n.currentEpoch)
  {
    if p.from == me {
      MemcmpFlips(me, me);
    }
    hide Memcmp;
  }

  // ---- The bound ----

  /** The configEpochs the nodes of rank below `k` ever held. */
  ghost function Union(held: seq<set<nat>>, k: nat): (r: set<nat>)
    requires k <= |held|
    ensures forall v :: v in r <==> exists j :: 0 <= j < k && v in held[j]
  {
    if k == 0 then {} else Union(held, k - 1) + held[k - 1]
  }

  /** Each node adds at most one configEpoch to those of the nodes with greater names. */
  lemma {:induction false} UnionBound(s: System, names: seq<Name>, k: nat)
    requires Inv(s, names) && k <= |names|
    ensures |Union(s.held, k)| <= k
  {
    if k > 0 {
      UnionBound(s, names, k - 1);
      var c := Config(s, names, k - 1);
      assert HeldOK(s, names, k - 1);
      var u := Union(s.held, k - 1);
      assert s.held[k - 1] <= u + {c};
      assert Union(s.held, k) <= u + {c};
      Fits(Union(s.held, k), u + {c});
    }
  }

  ghost function SumTo(bumps: seq<nat>, k: nat): nat
    requires k <= |bumps|
  {
    if k == 0 then 0 else SumTo(bumps, k - 1) + bumps[k - 1]
  }

  /** In any run from any start, the master with the k-th greatest name (k counted from zero) gives way
      at most k times, whatever is delivered, in whatever order, however stale. */
  lemma BumpsBounded(s: System, names: seq<Name>, es: seq<Event>, t: System, k: nat)
    requires Start(s, names) && Run(s, names, es, t) && k < |names|
    ensures k < |t.bumps| && t.bumps[k] <= k
  {
    StartInv(s, names);
    RunInv(s, names, es, t);
    UnionBound(t, names, k);
    assert HeldOK(t, names, k);
    var c := Config(t, names, k);
    assert t.held[k] - {c} <= Union(t.held, k);
    Fits(t.held[k] - {c}, Union(t.held, k));
    assert t.held[k] == (t.held[k] - {c}) + {c};
  }

  lemma {:induction false} SumBound(bumps: seq<nat>, k: nat)
    requires k <= |bumps| && forall i :: 0 <= i < k ==> bumps[i] <= i
    ensures 2 * SumTo(bumps, k) <= k * (k - 1)
  {
    if k > 0 {
      SumBound(bumps, k - 1);
      assert k * (k - 1) == (k - 1) * (k - 2) + 2 * (k - 1);
    }
  }

  /** So collisions end: all together the masters give way at most n(n-1)/2 times. */
  lemma TotalBumps(s: System, names: seq<Name>, es: seq<Event>, t: System)
    requires Start(s, names) && Run(s, names, es, t)
    ensures |t.bumps| == |names| && 2 * SumTo(t.bumps, |names|) <= |names| * (|names| - 1)
  {
    StartInv(s, names);
    RunInv(s, names, es, t);
    forall k | 0 <= k < |names| ensures t.bumps[k] <= k {
      BumpsBounded(s, names, es, t, k);
    }
    SumBound(t.bumps, |names|);
  }

  // ---- Quiescence ----

  /** The ping node `i` would send now. */
  function PingNow(s: System, names: seq<Name>, i: nat): Packet
    requires i < |names| && |s.nodes| == |names| && names[i] in s.nodes[i].epochs
  {
    Ping(names[i], s.nodes[i].currentEpoch, Config(s, names, i))
  }

  /** No ping sent now would make anyone give way. */
  ghost predicate Quiet(s: System, names: seq<Name>)
    requires Shape(s, names)
  {
    forall i, r :: 0 <= i < |names| && 0 <= r < |names| ==> !Bumped(s.nodes[r], names[r], PingNow(s, names, i))
  }

  /** In a reachable state no current ping causes a bump if and only if all configEpochs differ. */
  lemma QuietIffDistinct(s: System, names: seq<Name>, es: seq<Event>, t: System)
    requires Start(s, names) && Run(s, names, es, t)
    ensures Shape(t, names)
    ensures Quiet(t, names) <==> forall i, j :: 0 <= i < j < |names| ==> Config(t, names, i) != Config(t, names, j)
  {
    StartInv(s, names);
    RunInv(s, names, es, t);
    forall i, j | 0 <= i < j < |names|
      ensures Bumped(t.nodes[j], names[j], PingNow(t, names, i)) <==> Config(t, names, i) == Config(t, names, j)
      ensures !Bumped(t.nodes[i], names[i], PingNow(t, names, j))
    {
      PingNowBumps(t, names, i, j);
    }
    forall i | 0 <= i < |names| ensures !Bumped(t.nodes[i], names[i], PingNow(t, names, i)) {
      MemcmpFlips(names[i], names[i]);
    }
    hide Bumped;
  }

  lemma PingNowBumps(t: System, names: seq<Name>, i: nat, j: nat)
    requires Inv(t, names) && i < j < |names|
    ensures Bumped(t.nodes[j], names[j], PingNow(t, names, i)) <==> Config(t, names, i) == Config(t, names, j)
    ensures !Bumped(t.nodes[i], names[i], PingNow(t, names, j))
  {
    NamesDistinct(names, i, j);
    NamesDistinct(names, j, i);
    assert t.nodes[j].epochs[names[i]] <= Config(t, names, i);
    hide Memcmp;
  }
}
