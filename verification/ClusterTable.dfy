/** The slot operations of cluster.c on the node's own state, updated in place. Each keeps the
    agreement of slot table, bitmaps and counts, and says exactly which slots it rebinds. */
module ClusterTable {
  import opened Options
  import opened ClusterSlots
  import opened ClusterRoles
  import opened Sets

  /** `s` with entries `n` below `j` cleared. */
  ghost predicate ClearedTo(s: seq<Option<Name>>, r: seq<Option<Name>>, n: Name, j: nat) {
    && |r| == |s|
    && forall k :: 0 <= k < |s| ==> r[k] == if k < j && s[k] == Some(n) then None else s[k]
  }

  lemma NothingCleared(s: seq<Option<Name>>, n: Name)
    ensures ClearedTo(s, s, n, 0)
  {
  }

  lemma NoneBound(s: seq<Option<Name>>, r: seq<Option<Name>>, n: Name)
    requires ClearedTo(s, r, n, |s|)
    ensures forall j :: 0 <= j < |s| ==> r[j] != Some(n)
  {
  }

  lemma ClearNext(s: seq<Option<Name>>, r: seq<Option<Name>>, t: seq<Option<Name>>, n: Name, j: nat)
    requires ClearedTo(s, r, n, j) && j < |s|
    requires t == if r[j] == Some(n) then r[j := None] else r
    ensures ClearedTo(s, t, n, j + 1)
  {
  }

  class Cluster {
    const myself: Name
    var nodes: map<Name, Node>
    const slots: array<Option<Name>>
    const importing: array<Option<Name>>

    ghost function Now(): View
      reads this, slots, importing
    {
      View(Epochs(nodes), slots[..], importing[..])
    }

    /** Slot table, bitmaps and counts agree. */
    ghost predicate SlotsOK()
      reads this, slots, importing
    {
      && slots != importing && importing.Length == SLOTS
      && myself in nodes
      && Agree(nodes, slots[..])
    }

    ghost predicate Valid()
      reads this, slots, importing
    {
      SlotsOK() && Linked(nodes)
    }

    /** A node alone, serving nothing. */
    constructor (name: Name)
      ensures Valid() && fresh(slots) && fresh(importing) && myself == name
      ensures nodes.Keys == {name} && forall j :: 0 <= j < SLOTS ==> slots[j] == None && importing[j] == None
    {
      myself := name;
      nodes := map[name := Node(0, true, None, {}, false, 0, Zeros(), 0)];
      slots := new Option<Name>[SLOTS](_ => None);
      importing := new Option<Name>[SLOTS](_ => None);
      new;
      ZerosHaveNoBits();
    }

    /** `clusterAddSlot` (cluster.c:3415-3420). */
    method AddSlot(n: Name, j: nat) returns (ok: bool)
      requires SlotsOK() && n in nodes && j < SLOTS
      modifies this, slots
      ensures SlotsOK() && SameRest(old(nodes), nodes)
      ensures ok <==> old(slots[j]) == None
      ensures slots[..] == if ok then old(slots[..])[j := Some(n)] else old(slots[..])
    {
      hide NodeOK;
      hide TestBit;
      hide WithSlot;
      if slots[j].Some? {
        return false;
      }
      BindOK(nodes, slots[..], n, j);
      NodeLength(nodes[n]);
      RestKept(nodes[n], j);
      nodes := nodes[n := WithSlot(nodes[n], j)];
      slots[j] := Some(n);
      assert slots[..] == old(slots[..])[j := Some(n)];
      return true;
    }

    /** `clusterDelSlot` (cluster.c:3425-3432). */
    method DelSlot(j: nat) returns (ok: bool)
      requires SlotsOK() && j < SLOTS
      modifies this, slots
      ensures SlotsOK() && SameRest(old(nodes), nodes)
      ensures ok <==> old(slots[j]) != None
      ensures slots[..] == old(slots[..])[j := None]
      ensures ok ==> var n := old(slots[j]).value;
                n in nodes && n in old(nodes) && nodes[n].numslots + 1 == old(nodes)[n].numslots
    {
      hide NodeOK;
      hide TestBit;
      hide WithoutSlot;
      var n := slots[j];
      if n.None? {
        assert slots[..] == old(slots[..])[j := None];
        return false;
      }
      UnbindOK(nodes, slots[..], j);
      NodeLength(nodes[n.value]);
      RestKept(nodes[n.value], j);
      assert TestBit(nodes[n.value].slots, j);
      OneFewer(nodes[n.value], j);
      nodes := nodes[n.value := WithoutSlot(nodes[n.value], j)];
      slots[j] := None;
      assert slots[..] == old(slots[..])[j := None];
      return true;
    }

    /** `clusterDelNodeSlots` (cluster.c:3436-3444). The counter is raised outside the one-line `if`, so
        what is returned is the number of slots looked at, whatever the node served. */
    method DelNodeSlots(n: Name) returns (deleted: nat)
      requires SlotsOK() && n in nodes
      modifies this, slots
      ensures SlotsOK() && SameRest(old(nodes), nodes)
      ensures forall j :: 0 <= j < SLOTS ==> slots[j] == if old(slots[j]) == Some(n) then None else old(slots[j])
      ensures nodes[n].numslots == 0 && deleted == SLOTS
    {
      hide NodeOK;
      hide TestBit;
      deleted := 0;
      for j := 0 to SLOTS
        invariant SlotsOK() && SameRest(old(nodes), nodes) && deleted == j
        invariant forall k :: 0 <= k < j ==> slots[k] == if old(slots[k]) == Some(n) then None else old(slots[k])
        invariant forall k :: j <= k < SLOTS ==> slots[k] == old(slots[k])
      {
        NodeLength(nodes[n]);
        assert TestBit(nodes[n].slots, j) <==> slots[..][j] == Some(n);
        if TestBit(nodes[n].slots, j) {
          ghost var before := slots[..];
          var ok := DelSlot(j);
          assert forall k :: 0 <= k < SLOTS ==> slots[..][k] == if k == j then None else before[k];
        }
        deleted := deleted + 1;
      }
      NoSlotsNoBits(nodes, slots[..], n);
    }

    /** `clusterAddNode` with a node from `createClusterNode` (cluster.c:680-706, 875-881): a name
        already known is refused. */
    method AddNode(n: Name, isMaster: bool) returns (ok: bool)
      requires Valid()
      modifies this
      ensures Valid() && (ok <==> n !in old(nodes))
      ensures nodes == if ok then old(nodes)[n := Node(0, isMaster, None, {}, false, 0, Zeros(), 0)] else old(nodes)
    {
      if n in nodes {
        return false;
      }
      AddedAgree(nodes, slots[..], n, isMaster);
      AddedLinked(nodes, n, isMaster);
      hide Agree;
      hide Linked;
      nodes := nodes[n := Node(0, isMaster, None, {}, false, 0, Zeros(), 0)];
      return true;
    }

    /** Rebind slot `j`: unbind it and bind it to `n` (cluster.c:1518-1519, 2732-2733). */
    method Rebind(n: Name, j: nat)
      requires SlotsOK() && n in nodes && j < SLOTS
      modifies this, slots
      ensures SlotsOK() && SameRest(old(nodes), nodes)
      ensures slots[..] == old(slots[..])[j := Some(n)]
    {
      var gone := DelSlot(j);
      var bound := AddSlot(n, j);
    }

    /** The loop of `clusterDelNode` over the slots (cluster.c:900-907). */
    method ForgetSlots(n: Name)
      requires SlotsOK() && n in nodes
      modifies this, slots, importing
      ensures SlotsOK() && SameRest(old(nodes), nodes)
      ensures ClearedTo(old(slots[..]), slots[..], n, SLOTS)
      ensures ClearedTo(old(importing[..]), importing[..], n, SLOTS)
    {
      hide NodeOK;
      hide TestBit;
      hide ClearedTo;
      NothingCleared(slots[..], n);
      NothingCleared(importing[..], n);
      for j := 0 to SLOTS
        invariant SlotsOK() && SameRest(old(nodes), nodes)
        invariant ClearedTo(old(slots[..]), slots[..], n, j)
        invariant ClearedTo(old(importing[..]), importing[..], n, j)
      {
        ghost var slots1, importing1 := slots[..], importing[..];
        if importing[j] == Some(n) {
          importing[j] := None;
        }
        ClearNext(old(importing[..]), importing1, importing[..], n, j);
        if slots[j] == Some(n) {
          var ok := DelSlot(j);
        }
        ClearNext(old(slots[..]), slots1, slots[..], n, j);
      }
    }

    /** `clusterDelNode` (cluster.c:894-921) with `freeClusterNode` (cluster.c:845-856): afterwards no slot
        is bound to, or imported from, the node, it is not known, and the slaves on its list have no master.
        No node is left naming it as its master if and only if none was that it does not list. */
    method DelNode(n: Name)
      requires Valid() && n in nodes && n != myself
      modifies this, slots, importing
      ensures SlotsOK() && nodes.Keys == old(nodes).Keys - {n}
      ensures SameRest(Removed(old(nodes), n), nodes)
      ensures ClearedTo(old(slots[..]), slots[..], n, SLOTS)
      ensures ClearedTo(old(importing[..]), importing[..], n, SLOTS)
      ensures Valid() <==> !Dangles(old(nodes), n)
    {
      ghost var was, slots0 := nodes, slots[..];
      ForgetSlots(n);
      ForgottenOK(was, nodes, slots0, slots[..], n);
      hide Agree;
      hide Linked;
      hide Dangles;
      hide SameRest;
      hide Removed;
      nodes := Removed(nodes, n);
    }

    /** The sender of a packet says it is a master now (`clusterSetNodeAsMaster`, cluster.c:1441-1452). */
    method SetNodeAsMaster(n: Name)
      requires Valid() && n in nodes
      modifies this
      ensures Valid() && MasterKnownIn(old(nodes), n) && nodes == AsMaster(old(nodes), n)
    {
      AsMasterRoles(nodes, n);
      RolesAgree(nodes, AsMaster(nodes, n), slots[..]);
      hide NodeOK;
      hide TestBit;
      hide Agree;
      hide Linked;
      hide OnlyRoles;
      if nodes[n].isMaster {
        return;
      }
      if nodes[n].slaveof.Some? {
        var m := nodes[n].slaveof.value;
        nodes := nodes[m := nodes[m].(slaves := nodes[m].slaves - {n})];
      }
      nodes := nodes[n := nodes[n].(slaveof := None)];
      nodes := nodes[n := nodes[n].(isMaster := true)];
    }

    /** The part of that about masters and slaves (cluster.c:1791-1815). */
    method TurnRoles(n: Name, master: Option<Name>)
      requires Valid() && n in nodes
      modifies this
      ensures Valid() && MasterKnownIn(old(nodes), n) && nodes == Turned(old(nodes), n, master)
    {
      MasterKnown(nodes, n);
      TurnedRoles(nodes, n, master);
      RolesAgree(nodes, Turned(nodes, n, master), slots[..]);
      hide Agree;
      hide Linked;
      hide OnlyRoles;
      if nodes[n].isMaster {
        nodes := nodes[n := nodes[n].(isMaster := false)];
        nodes := nodes[n := nodes[n].(slaves := {})];
      }
      if master.Some? && master.value in nodes && nodes[n].slaveof != master {
        if nodes[n].slaveof.Some? {
          var m := nodes[n].slaveof.value;
          nodes := nodes[m := nodes[m].(slaves := nodes[m].slaves - {n})];
        }
        nodes := nodes[n := nodes[n].(slaveof := master)];
        nodes := nodes[master.value := nodes[master.value].(slaves := nodes[master.value].slaves + {n})];
      }
    }

    /** The sender of a packet says it is a slave of `master` now (cluster.c:1789-1815): a former master
        loses its slots and forgets its slaves. */
    method TurnedSlave(n: Name, master: Option<Name>)
      requires Valid() && n in nodes
      modifies this, slots
      ensures Valid() && MasterKnownIn(old(nodes), n) && SameRest(Turned(old(nodes), n, master), nodes)
      ensures forall j :: 0 <= j < SLOTS ==>
                slots[j] == if old(nodes)[n].isMaster && old(slots[j]) == Some(n) then None else old(slots[j])
    {
      ghost var was := nodes;
      MasterKnown(nodes, n);
      SameRestSelf(nodes);
      hide Agree;
      hide Linked;
      hide Turned;
      if nodes[n].isMaster {
        var _ := DelNodeSlots(n);
        RestLinked(was, nodes);
      }
      TurnedRest(was, nodes, n, master);
      hide SameRest;
      TurnRoles(n, master);
    }

    /** The loop of `clusterFailoverReplaceYourMaster` (cluster.c:2730-2735). */
    method TakeOver(master: Name)
      requires SlotsOK() && master in nodes
      modifies this, slots
      ensures SlotsOK() && SameRest(old(nodes), nodes)
      ensures forall j :: 0 <= j < SLOTS ==>
                slots[j] == if old(slots[j]) == Some(master) then Some(myself) else old(slots[j])
    {
      hide NodeOK;
      hide TestBit;
      for j := 0 to SLOTS
        invariant SlotsOK() && SameRest(old(nodes), nodes)
        invariant forall k :: 0 <= k < j ==>
                    slots[k] == if old(slots[k]) == Some(master) then Some(myself) else old(slots[k])
        invariant forall k :: j <= k < SLOTS ==> slots[k] == old(slots[k])
      {
        NodeLength(nodes[master]);
        assert TestBit(nodes[master].slots, j) <==> slots[..][j] == Some(master);
        if TestBit(nodes[master].slots, j) {
          ghost var before := slots[..];
          Rebind(myself, j);
          assert forall k :: 0 <= k < SLOTS ==> slots[..][k] == if k == j then Some(myself) else before[k];
        }
      }
    }

    /** The slave takes over every slot of its master (`clusterFailoverReplaceYourMaster`,
        cluster.c:2719-2736). */
    method ReplaceYourMaster()
      requires Valid()
      modifies this, slots
      ensures Valid() && MasterKnownIn(old(nodes), myself)
      ensures var me := old(nodes)[myself];
              if me.isMaster || me.slaveof.None? then nodes == old(nodes) && slots[..] == old(slots[..])
              else
                && SameRest(AsMaster(old(nodes), myself), nodes) && nodes[myself].isMaster
                && (forall j :: 0 <= j < SLOTS ==>
                      slots[j] == if old(slots[j]) == me.slaveof then Some(myself) else old(slots[j]))
    {
      MasterKnown(nodes, myself);
      AsMasterRoles(nodes, myself);
      hide Agree;
      hide Linked;
      hide OnlyRoles;
      var master := nodes[myself].slaveof;
      if nodes[myself].isMaster || master.None? {
        return;
      }
      SetNodeAsMaster(myself);
      ghost var named := nodes;
      hide AsMaster;
      TakeOver(master.value);
      RestLinked(named, nodes);
      RestParts(named, nodes, myself);
    }

    /** The node this one serves slots for: itself, or its master if it is a slave (cluster.c:1481). */
    function CurrentMaster(): Option<Name>
      reads this
      requires myself in nodes
    {
      MasterOf(nodes, myself)
    }

    /** `clusterCloseAllSlots` (cluster.c:3448-3453). */
    method CloseAllSlots()
      requires SlotsOK()
      modifies importing
      ensures SlotsOK() && forall j :: 0 <= j < SLOTS ==> importing[j] == None
    {
      assert slots.Length == SLOTS;
      hide Agree;
      ghost var before := slots[..];
      forall j | 0 <= j < SLOTS {
        importing[j] := None;
      }
      assert slots[..] == before;
    }

    /** `clusterSetMaster` (cluster.c:3635-3650); it asserts that this node is not `n` and has no slots. */
    method SetMaster(n: Name)
      requires Valid() && n in nodes && n != myself && nodes[myself].numslots == 0
      modifies this, importing
      ensures Valid() && MasterKnownIn(old(nodes), myself) && nodes == Following(old(nodes), myself, n)
      ensures forall j :: 0 <= j < SLOTS ==>
                importing[j] == if old(nodes)[myself].isMaster then None else old(importing[j])
    {
      FollowingRoles(nodes, myself, n);
      RolesAgree(nodes, Following(nodes, myself, n), slots[..]);
      hide NodeOK;
      hide TestBit;
      hide Linked;
      hide OnlyRoles;
      hide Agree;
      if nodes[myself].isMaster {
        CloseAllSlots();
        nodes := nodes[myself := nodes[myself].(isMaster := false)];
      } else if nodes[myself].slaveof.Some? {
        var m := nodes[myself].slaveof.value;
        nodes := nodes[m := nodes[m].(slaves := nodes[m].slaves - {myself})];
      }
      nodes := nodes[myself := nodes[myself].(slaveof := Some(n))];
      nodes := nodes[n := nodes[n].(slaves := nodes[n].slaves + {myself})];
    }
  }

  function MasterOf(nodes: map<Name, Node>, me: Name): Option<Name>
    requires me in nodes
  {
    if nodes[me].isMaster then Some(me) else nodes[me].slaveof
  }

  /** The master that node `n` names, if any, is known. */
  ghost predicate MasterKnownIn(nodes: map<Name, Node>, n: Name) {
    n in nodes && (nodes[n].slaveof.Some? ==> nodes[n].slaveof.value in nodes)
  }

  lemma BothLinked(a: map<Name, Node>, b: map<Name, Node>)
    requires SameRest(a, b)
    ensures Linked(a) <==> Linked(b)
  {
    if Linked(a) {
      RestLinked(a, b);
    }
    if Linked(b) {
      assert forall n :: n in a ==> Rest(b[n]) == Rest(a[n]);
      RestLinked(b, a);
    }
    hide Linked;
    hide Rest;
  }

  lemma AddedAgree(nodes: map<Name, Node>, slots: seq<Option<Name>>, n: Name, isMaster: bool)
    requires Agree(nodes, slots) && n !in nodes
    ensures Agree(nodes[n := Node(0, isMaster, None, {}, false, 0, Zeros(), 0)], slots)
  {
    ZerosHaveNoBits();
    hide TestBit;
    hide Bits;
    hide Zeros;
  }

  lemma AddedLinked(nodes: map<Name, Node>, n: Name, isMaster: bool)
    requires Linked(nodes) && n !in nodes
    ensures Linked(nodes[n := Node(0, isMaster, None, {}, false, 0, Zeros(), 0)])
  {
    hide Zeros;
  }

  lemma SameRestSelf(a: map<Name, Node>)
    ensures SameRest(a, a)
  {
  }

  /** Removing a node whose slots are gone. */
  lemma ForgottenOK(was: map<Name, Node>, now: map<Name, Node>, slots0: seq<Option<Name>>, slots: seq<Option<Name>>, n: Name)
    requires Linked(was) && SameRest(was, now) && n in was && Agree(now, slots)
    requires |slots0| == SLOTS && ClearedTo(slots0, slots, n, SLOTS)
    ensures n in now && Agree(Removed(now, n), slots) && SameRest(Removed(was, n), Removed(now, n))
    ensures Removed(now, n).Keys == was.Keys - {n}
    ensures Linked(Removed(now, n)) <==> !Dangles(was, n)
  {
    NoneBound(slots0, slots, n);
    AgreeLength(now, slots);
    hide *;
    RestParts(was, now, n);
    RemovedKeys(was, n);
    RemovedKeys(now, n);
    RemovedAgree(now, slots, n);
    SameRestRemoved(was, now, n);
    SameRestKeys(was, now);
    RemovedLinked(was, n);
    BothLinked(Removed(was, n), Removed(now, n));
  }

  lemma AgreeLength(nodes: map<Name, Node>, slots: seq<Option<Name>>)
    requires Agree(nodes, slots)
    ensures |slots| == SLOTS
  {
  }

  lemma RemovedKeys(nodes: map<Name, Node>, n: Name)
    requires n in nodes
    ensures Removed(nodes, n).Keys == nodes.Keys - {n}
  {
  }

  lemma SameRestKeys(a: map<Name, Node>, b: map<Name, Node>)
    requires SameRest(a, b)
    ensures a.Keys == b.Keys
  {
  }

  lemma SameRestRemoved(a: map<Name, Node>, b: map<Name, Node>, n: Name)
    requires SameRest(a, b) && n in a
    ensures SameRest(Removed(a, n), Removed(b, n))
  {
    var x, y := Removed(a, n), Removed(b, n);
    assert x.Keys == y.Keys;
    forall m | m in x ensures Rest(x[m]) == Rest(y[m]) {
      RestParts(a, b, m);
      RestParts(a, b, n);
    }
  }

  lemma RestParts(a: map<Name, Node>, b: map<Name, Node>, m: Name)
    requires SameRest(a, b) && m in a
    ensures m in b && Rest(a[m]) == Rest(b[m])
    ensures b[m].isMaster == a[m].isMaster && b[m].slaveof == a[m].slaveof && b[m].slaves == a[m].slaves
  {
    assert Rest(a[m]) == Rest(b[m]);
  }

  lemma RemovedAgree(nodes: map<Name, Node>, slots: seq<Option<Name>>, n: Name)
    requires Agree(nodes, slots) && n in nodes && forall j :: 0 <= j < SLOTS ==> slots[j] != Some(n)
    ensures Agree(Removed(nodes, n), slots)
  {
    hide TestBit;
    hide Bits;
    var r := Removed(nodes, n);
    forall m, q: nat | m in r && q < SLOTS
      ensures |r[m].slots| == SLOTS / 8 && (TestBit(r[m].slots, q) <==> slots[q] == Some(m))
    {
      NodeLength(nodes[m]);
      assert TestBit(nodes[m].slots, q) <==> slots[q] == Some(m);
    }
  }

  lemma TurnedRest(a: map<Name, Node>, b: map<Name, Node>, n: Name, master: Option<Name>)
    requires SameRest(a, b) && MasterKnownIn(a, n)
    ensures MasterKnownIn(b, n) && SameRest(Turned(a, n, master), Turned(b, n, master))
  {
    RestParts(a, b, n);
    DemotedRest(a, b, n);
    var x, y := Demoted(a, n), Demoted(b, n);
    RestParts(x, y, n);
    hide SameRest;
    if master.Some? && master.value in x && x[n].slaveof != master {
      UnlistedRest(x, y, n);
      ListedRest(Unlisted(x, n), Unlisted(y, n), n, master.value);
    }
    hide Demoted;
    hide Listed;
    hide Unlisted;
  }

  lemma DemotedRest(a: map<Name, Node>, b: map<Name, Node>, n: Name)
    requires SameRest(a, b) && n in a
    ensures n in b && SameRest(Demoted(a, n), Demoted(b, n))
  {
    RestParts(a, b, n);
  }

  lemma UnlistedRest(a: map<Name, Node>, b: map<Name, Node>, n: Name)
    requires SameRest(a, b) && MasterKnownIn(a, n)
    ensures MasterKnownIn(b, n) && SameRest(Unlisted(a, n), Unlisted(b, n))
  {
    RestParts(a, b, n);
    if a[n].slaveof.Some? {
      RestParts(a, b, a[n].slaveof.value);
    }
  }

  lemma ListedRest(a: map<Name, Node>, b: map<Name, Node>, n: Name, m: Name)
    requires SameRest(a, b) && n in a && m in a
    ensures n in b && m in b && SameRest(Listed(a, n, m), Listed(b, n, m))
  {
    RestParts(a, b, n);
    RestParts(a, b, m);
  }

  lemma FollowingRest(a: map<Name, Node>, b: map<Name, Node>, me: Name, n: Name)
    requires SameRest(a, b) && MasterKnownIn(a, me) && n in a
    ensures MasterKnownIn(b, me) && n in b && SameRest(Following(a, me, n), Following(b, me, n))
  {
    RestParts(a, b, me);
    if a[me].isMaster {
      var x, y := a[me := a[me].(isMaster := false)], b[me := b[me].(isMaster := false)];
      assert SameRest(x, y);
      hide SameRest;
      ListedRest(x, y, me, n);
    } else {
      UnlistedRest(a, b, me);
      hide SameRest;
      ListedRest(Unlisted(a, me), Unlisted(b, me), me, n);
    }
    hide Listed;
    hide Unlisted;
  }

  lemma RestKept(n: Node, j: nat)
    requires j / 8 < |n.slots|
    ensures Rest(WithSlot(n, j)) == Rest(n) && Rest(WithoutSlot(n, j)) == Rest(n)
  {
  }

  lemma OneFewer(n: Node, j: nat)
    requires j / 8 < |n.slots| && TestBit(n.slots, j)
    ensures WithoutSlot(n, j).numslots + 1 == n.numslots
  {
  }

  lemma NoSlotsNoBits(nodes: map<Name, Node>, slots: seq<Option<Name>>, n: Name)
    requires Agree(nodes, slots) && n in nodes && forall j :: 0 <= j < SLOTS ==> slots[j] != Some(n)
    ensures nodes[n].numslots == 0
  {
    var b := nodes[n].slots;
    NodeLength(nodes[n]);
    forall p: nat | p < 8 * |b| ensures !TestBit(b, p) {
      assert slots[p] != Some(n);
    }
    assert Bits(b) == {};
  }

  lemma {:induction false} NoneCounted(nodes: map<Name, Node>, slots: seq<Option<Name>>, n: Name)
    requires Agree(nodes, slots) && n in nodes
    ensures nodes[n].numslots == 0 <==> forall j :: 0 <= j < SLOTS ==> slots[j] != Some(n)
  {
    if nodes[n].numslots == 0 {
      var b := nodes[n].slots;
      NodeLength(nodes[n]);
      assert Bits(b) == {};
      forall j | 0 <= j < SLOTS ensures slots[j] != Some(n) {
        assert j !in Bits(b);
        InBits(b, j);
        assert TestBit(b, j) <==> slots[j] == Some(n);
      }
    } else if forall j :: 0 <= j < SLOTS ==> slots[j] != Some(n) {
      NoSlotsNoBits(nodes, slots, n);
    }
  }

  lemma SameSlotsOK(nodes: map<Name, Node>, slots: seq<Option<Name>>, n: Name, node: Node)
    requires Agree(nodes, slots) && n in nodes
    requires node.slots == nodes[n].slots && node.numslots == nodes[n].numslots
    ensures Agree(nodes[n := node], slots)
  {
    hide TestBit;
    hide Bits;
    var nodes' := nodes[n := node];
    forall m, q: nat | m in nodes' && q < SLOTS
      ensures |nodes'[m].slots| == SLOTS / 8 && (TestBit(nodes'[m].slots, q) <==> slots[q] == Some(m))
    {
      NodeLength(nodes[m]);
      assert TestBit(nodes[m].slots, q) <==> slots[q] == Some(m);
    }
  }

  lemma BitsBelow(b: seq<bv8>, p: nat)
    requires |b| == SLOTS / 8
    ensures p in Bits(b) <==> p < SLOTS && TestBit(b, p)
  {
    hide HasBit;
  }

  lemma FullIff(a: set<nat>, n: nat)
    requires forall p :: p in a ==> p < n
    ensures |a| <= n
    ensures |a| == n <==> forall p: nat :: p < n ==> p in a
  {
    var all := Below(n);
    Fits(a, all);
    if p: nat :| p < n && p !in a {
      Fits(a, all - {p});
    } else {
      assert a == all;
    }
  }

  lemma FewOrAll(b: seq<bv8>)
    requires |b| == SLOTS / 8
    ensures |Bits(b)| <= SLOTS
    ensures |Bits(b)| == SLOTS <==> forall p: nat :: p < SLOTS ==> TestBit(b, p)
  {
    forall p: nat ensures p in Bits(b) <==> p < SLOTS && TestBit(b, p) {
      BitsBelow(b, p);
    }
    hide Bits;
    hide TestBit;
    FullIff(Bits(b), SLOTS);
  }

  function Below(n: nat): (s: set<nat>)
    ensures |s| == n && forall p: nat :: p in s <==> p < n
  {
    if n == 0 then {} else Below(n - 1) + {n - 1}
  }

  /** What `DelNodeSlots` returns is the number of slots deleted if and only if the node served all. */
  lemma ReturnsDeletedIffAll(nodes: map<Name, Node>, slots: seq<Option<Name>>, n: Name)
    requires Agree(nodes, slots) && n in nodes
    ensures SLOTS == nodes[n].numslots <==> forall j :: 0 <= j < SLOTS ==> slots[j] == Some(n)
  {
    NodeLength(nodes[n]);
    FewOrAll(nodes[n].slots);
    hide TestBit;
    hide Bits;
    forall j: nat | j < SLOTS ensures TestBit(nodes[n].slots, j) <==> slots[j] == Some(n) {
      assert TestBit(nodes[n].slots, j) <==> slots[j] == Some(n);
    }
  }

  /** A new node is counted as having had every slot deleted; it had none. */
  method NothingDeleted(name: Name) returns (c: Cluster, had: int, deleted: nat)
    ensures fresh(c) && had == 0 && deleted == SLOTS
  {
    c := new Cluster(name);
    NoSlotsNoBits(c.nodes, c.slots[..], name);
    had := c.nodes[name].numslots;
    deleted := c.DelNodeSlots(name);
  }
}
