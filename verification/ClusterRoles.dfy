/** Masters and slaves in cluster.c: each node's master, and each node's list of slaves. The two are not
    kept mutually consistent: a master that turns into a slave forgets its slaves, and they still name it
    as their master (cluster.c:1799). Exactly those are left with a dangling master when it is removed. */
module ClusterRoles {
  import opened Options
  import opened ClusterSlots

  /** Every master named is known, every slave listed names the lister, and masters have no master. */
  ghost predicate Linked(nodes: map<Name, Node>) {
    && (forall n :: n in nodes && nodes[n].slaveof.Some? ==> nodes[n].slaveof.value in nodes)
    && (forall n, s :: n in nodes && s in nodes[n].slaves ==> s in nodes && nodes[s].slaveof == Some(n))
    && (forall n :: n in nodes && nodes[n].isMaster ==> nodes[n].slaveof == None)
  }

  /** The same nodes, apart from who follows whom. */
  ghost predicate OnlyRoles(a: map<Name, Node>, b: map<Name, Node>) {
    && a.Keys == b.Keys
    && forall n :: n in a ==>
         b[n] == a[n].(isMaster := b[n].isMaster, slaveof := b[n].slaveof, slaves := b[n].slaves)
  }

  /** `clusterNodeRemoveSlave` on the node's master, if it has one (cluster.c:804-819). */
  function Unlisted(nodes: map<Name, Node>, n: Name): map<Name, Node>
    requires n in nodes && (nodes[n].slaveof.Some? ==> nodes[n].slaveof.value in nodes)
  {
    match nodes[n].slaveof
    case None => nodes
    case Some(m) => nodes[m := nodes[m].(slaves := nodes[m].slaves - {n})]
  }

  /** The node's master becomes `m`, which lists it (`clusterNodeAddSlave`, cluster.c:821-832). */
  function Listed(nodes: map<Name, Node>, n: Name, m: Name): map<Name, Node>
    requires n in nodes && m in nodes
  {
    var t := nodes[n := nodes[n].(slaveof := Some(m))];
    t[m := t[m].(slaves := t[m].slaves + {n})]
  }

  /** `clusterSetNodeAsMaster` (cluster.c:1441-1452). */
  function AsMaster(nodes: map<Name, Node>, n: Name): map<Name, Node>
    requires n in nodes && (nodes[n].slaveof.Some? ==> nodes[n].slaveof.value in nodes)
  {
    if nodes[n].isMaster then nodes
    else
      var t := Unlisted(nodes, n);
      var u := t[n := t[n].(slaveof := None)];
      u[n := u[n].(isMaster := true)]
  }

  /** A master turned into a slave: its list of slaves is reset (cluster.c:1791-1799). */
  function Demoted(nodes: map<Name, Node>, n: Name): map<Name, Node>
    requires n in nodes
  {
    if nodes[n].isMaster then
      var t := nodes[n := nodes[n].(isMaster := false)];
      t[n := t[n].(slaves := {})]
    else nodes
  }

  /** The master of a slave changed, if the new one is known (cluster.c:1807-1815). */
  function Followed(nodes: map<Name, Node>, n: Name, master: Option<Name>): map<Name, Node>
    requires n in nodes && (nodes[n].slaveof.Some? ==> nodes[n].slaveof.value in nodes)
  {
    if master.Some? && master.value in nodes && nodes[n].slaveof != master
    then Listed(Unlisted(nodes, n), n, master.value) else nodes
  }

  function Turned(nodes: map<Name, Node>, n: Name, master: Option<Name>): map<Name, Node>
    requires n in nodes && (nodes[n].slaveof.Some? ==> nodes[n].slaveof.value in nodes)
  {
    Followed(Demoted(nodes, n), n, master)
  }

  /** The roles after `clusterSetMaster` (cluster.c:3639-3647): a former master keeps its list of slaves. */
  function Following(nodes: map<Name, Node>, me: Name, n: Name): map<Name, Node>
    requires me in nodes && n in nodes && (nodes[me].slaveof.Some? ==> nodes[me].slaveof.value in nodes)
  {
    Listed(if nodes[me].isMaster then nodes[me := nodes[me].(isMaster := false)] else Unlisted(nodes, me), me, n)
  }

  /** The node as `freeClusterNode` of `n` leaves it (cluster.c:845-853). */
  function Orphaned(node: Node, m: Name, gone: Node, n: Name): Node {
    node.(slaveof := if gone.isMaster && m in gone.slaves then None else node.slaveof,
          slaves := if !gone.isMaster && gone.slaveof == Some(m) then node.slaves - {n} else node.slaves)
  }

  function Removed(nodes: map<Name, Node>, n: Name): map<Name, Node>
    requires n in nodes
  {
    map m | m in nodes && m != n :: Orphaned(nodes[m], m, nodes[n], n)
  }

  /** Another node names `n` as its master, and removing `n` would not change that. */
  ghost predicate Dangles(nodes: map<Name, Node>, n: Name) {
    exists m :: m in nodes && n in nodes && m != n && nodes[m].slaveof == Some(n) &&
                !(nodes[n].isMaster && m in nodes[n].slaves)
  }

  // ---- What the changes are ----

  /** Node `n` leaves the list of slaves of `from` and joins that of `to`; of the other nodes nothing else
      changes. */
  ghost predicate Relisted(a: map<Name, Node>, b: map<Name, Node>, n: Name, from: Option<Name>, to: Option<Name>) {
    && a.Keys == b.Keys
    && forall x :: x in a && x != n ==>
         b[x] == a[x].(slaves := (a[x].slaves - (if from == Some(x) then {n} else {}))
                                 + (if to == Some(x) then {n} else {}))
  }

  /** A slave that says it is a master leaves its master. */
  lemma AsMasterIs(nodes: map<Name, Node>, n: Name)
    requires n in nodes && (nodes[n].slaveof.Some? ==> nodes[n].slaveof.value in nodes)
    ensures var r := AsMaster(nodes, n);
      if nodes[n].isMaster then r == nodes
      else Relisted(nodes, r, n, nodes[n].slaveof, None) && r[n].isMaster && r[n].slaveof == None
  {
  }

  /** A node that says it is a slave forgets its own slaves if it was a master, and changes to the master
      it names if that is known. */
  lemma TurnedIs(nodes: map<Name, Node>, n: Name, master: Option<Name>)
    requires n in nodes && (nodes[n].slaveof.Some? ==> nodes[n].slaveof.value in nodes)
    ensures var r := Turned(nodes, n, master);
      && n in r && !r[n].isMaster
      && (nodes[n].isMaster && master != Some(n) ==> r[n].slaves == {})
      && if master.Some? && master.value in nodes && nodes[n].slaveof != master
         then Relisted(nodes, r, n, nodes[n].slaveof, master) && r[n].slaveof == master
         else Relisted(nodes, r, n, None, None) && r[n].slaveof == nodes[n].slaveof
  {
    DemotedIs(nodes, n);
    FollowedIs(Demoted(nodes, n), n, master);
    hide Demoted;
    hide Followed;
  }

  lemma DemotedIs(nodes: map<Name, Node>, n: Name)
    requires n in nodes
    ensures var r := Demoted(nodes, n);
      && Relisted(nodes, r, n, None, None) && !r[n].isMaster && r[n].slaveof == nodes[n].slaveof
      && r[n].slaves == if nodes[n].isMaster then {} else nodes[n].slaves
  {
  }

  lemma FollowedIs(nodes: map<Name, Node>, n: Name, master: Option<Name>)
    requires n in nodes && (nodes[n].slaveof.Some? ==> nodes[n].slaveof.value in nodes)
    ensures var r := Followed(nodes, n, master);
      && n in r && r[n].isMaster == nodes[n].isMaster
      && (master != Some(n) && nodes[n].slaves == {} ==> r[n].slaves == {})
      && if master.Some? && master.value in nodes && nodes[n].slaveof != master
         then Relisted(nodes, r, n, nodes[n].slaveof, master) && r[n].slaveof == master
         else r == nodes
  {
  }

  /** A node made to follow another joins its list of slaves, and as a slave leaves that of its master. */
  lemma FollowingIs(nodes: map<Name, Node>, me: Name, n: Name)
    requires me in nodes && n in nodes && me != n && (nodes[me].slaveof.Some? ==> nodes[me].slaveof.value in nodes)
    ensures var r := Following(nodes, me, n);
      && Relisted(nodes, r, me, if nodes[me].isMaster then None else nodes[me].slaveof, Some(n))
      && !r[me].isMaster && r[me].slaveof == Some(n)
  {
  }

  /** A node that is removed leaves its master's list, and the slaves on its own list have no master. */
  lemma RemovedIs(nodes: map<Name, Node>, n: Name, m: Name)
    requires n in nodes && m in nodes && m != n
    ensures Removed(nodes, n).Keys == nodes.Keys - {n}
    ensures var a, b := nodes[m], Removed(nodes, n)[m];
      && b == a.(slaveof := b.slaveof, slaves := b.slaves)
      && (nodes[n].isMaster && m in nodes[n].slaves ==> b.slaveof == None)
      && (!(nodes[n].isMaster && m in nodes[n].slaves) ==> b.slaveof == a.slaveof)
      && (!nodes[n].isMaster && nodes[n].slaveof == Some(m) ==> b.slaves == a.slaves - {n})
      && (nodes[n].isMaster || nodes[n].slaveof != Some(m) ==> b.slaves == a.slaves)
  {
  }

  // ---- What the changes keep ----

  /** `n` is on nobody's list. */
  ghost predicate Free(nodes: map<Name, Node>, n: Name) {
    forall k :: k in nodes ==> n !in nodes[k].slaves
  }

  lemma SlaveofChanged(nodes: map<Name, Node>, n: Name, o: Option<Name>) returns (t: map<Name, Node>)
    requires Linked(nodes) && n in nodes && Free(nodes, n)
    requires o.Some? ==> o.value in nodes && !nodes[n].isMaster
    ensures t == nodes[n := nodes[n].(slaveof := o)]
    ensures Linked(t) && OnlyRoles(nodes, t) && t[n] == nodes[n].(slaveof := o)
  {
    t := nodes[n := nodes[n].(slaveof := o)];
  }

  lemma RoleChanged(nodes: map<Name, Node>, n: Name, b: bool) returns (t: map<Name, Node>)
    requires Linked(nodes) && n in nodes && (b ==> nodes[n].slaveof == None)
    ensures t == nodes[n := nodes[n].(isMaster := b)]
    ensures Linked(t) && OnlyRoles(nodes, t) && t[n] == nodes[n].(isMaster := b) && (Free(nodes, n) ==> Free(t, n))
  {
    t := nodes[n := nodes[n].(isMaster := b)];
    RoleLinked(nodes, n, b);
    hide Linked;
  }

  lemma RoleLinked(nodes: map<Name, Node>, n: Name, b: bool)
    requires Linked(nodes) && n in nodes && (b ==> nodes[n].slaveof == None)
    ensures Linked(nodes[n := nodes[n].(isMaster := b)])
  {
  }

  lemma ListChanged(nodes: map<Name, Node>, m: Name, slaves: set<Name>) returns (t: map<Name, Node>)
    requires Linked(nodes) && m in nodes
    requires forall s :: s in slaves - nodes[m].slaves ==> s in nodes && nodes[s].slaveof == Some(m)
    ensures t == nodes[m := nodes[m].(slaves := slaves)]
    ensures Linked(t) && OnlyRoles(nodes, t)
    ensures forall k :: k in nodes ==> t[k].slaveof == nodes[k].slaveof && t[k].isMaster == nodes[k].isMaster
  {
    t := nodes[m := nodes[m].(slaves := slaves)];
    ListLinked(nodes, m, slaves);
    hide Linked;
  }

  lemma ListLinked(nodes: map<Name, Node>, m: Name, slaves: set<Name>)
    requires Linked(nodes) && m in nodes
    requires forall s :: s in slaves - nodes[m].slaves ==> s in nodes && nodes[s].slaveof == Some(m)
    ensures Linked(nodes[m := nodes[m].(slaves := slaves)])
  {
  }

  /** The master of `n`, if it has one, is known. */
  lemma MasterKnown(nodes: map<Name, Node>, n: Name)
    requires Linked(nodes) && n in nodes
    ensures nodes[n].slaveof.Some? ==> nodes[n].slaveof.value in nodes
    ensures nodes[n].isMaster ==> nodes[n].slaveof == None && Free(nodes, n)
  {
  }

  lemma UnlistedFree(nodes: map<Name, Node>, n: Name)
    requires Linked(nodes) && n in nodes && (nodes[n].slaveof.Some? ==> nodes[n].slaveof.value in nodes)
    ensures Free(Unlisted(nodes, n), n)
  {
  }

  lemma UnlistedRoles(nodes: map<Name, Node>, n: Name)
    requires Linked(nodes) && n in nodes
    ensures nodes[n].slaveof.Some? ==> nodes[n].slaveof.value in nodes
    ensures OnlyRoles(nodes, Unlisted(nodes, n)) && Linked(Unlisted(nodes, n)) && Free(Unlisted(nodes, n), n)
    ensures Unlisted(nodes, n).Keys == nodes.Keys
    ensures forall k :: k in nodes ==>
              Unlisted(nodes, n)[k].slaveof == nodes[k].slaveof && Unlisted(nodes, n)[k].isMaster == nodes[k].isMaster
  {
    MasterKnown(nodes, n);
    UnlistedFree(nodes, n);
    SameRoles(nodes);
    hide Linked;
    hide OnlyRoles;
    hide Free;
    if nodes[n].slaveof.Some? {
      var m := nodes[n].slaveof.value;
      var t := ListChanged(nodes, m, nodes[m].slaves - {n});
    }
  }

  lemma SameRoles(nodes: map<Name, Node>)
    ensures OnlyRoles(nodes, nodes)
  {
  }

  lemma ListedRoles(nodes: map<Name, Node>, n: Name, m: Name)
    requires Linked(nodes) && n in nodes && m in nodes && !nodes[n].isMaster && Free(nodes, n)
    ensures OnlyRoles(nodes, Listed(nodes, n, m)) && Linked(Listed(nodes, n, m)) && n in Listed(nodes, n, m)
    ensures Listed(nodes, n, m)[n].slaveof == Some(m) && !Listed(nodes, n, m)[n].isMaster
  {
    hide Linked;
    hide OnlyRoles;
    hide Free;
    var t := SlaveofChanged(nodes, n, Some(m));
    var u := ListChanged(t, m, t[m].slaves + {n});
    RolesTrans(nodes, t, u);
  }

  lemma RolesTrans(a: map<Name, Node>, b: map<Name, Node>, c: map<Name, Node>)
    requires OnlyRoles(a, b) && OnlyRoles(b, c)
    ensures OnlyRoles(a, c)
  {
  }

  lemma AsMasterRoles(nodes: map<Name, Node>, n: Name)
    requires Linked(nodes) && n in nodes
    ensures nodes[n].slaveof.Some? ==> nodes[n].slaveof.value in nodes
    ensures OnlyRoles(nodes, AsMaster(nodes, n)) && Linked(AsMaster(nodes, n)) && n in AsMaster(nodes, n)
    ensures AsMaster(nodes, n)[n].isMaster && AsMaster(nodes, n)[n].slaveof == None
    ensures AsMaster(nodes, n).Keys == nodes.Keys
  {
    MasterKnown(nodes, n);
    UnlistedRoles(nodes, n);
    SameRoles(nodes);
    hide Linked;
    hide OnlyRoles;
    hide Free;
    hide Unlisted;
    if !nodes[n].isMaster {
      var t := Unlisted(nodes, n);
      var u := SlaveofChanged(t, n, None);
      var v := RoleChanged(u, n, true);
      RolesTrans(nodes, t, u);
      RolesTrans(nodes, u, v);
    }
  }

  lemma AsMasterElse(nodes: map<Name, Node>, n: Name, m: Name)
    requires Linked(nodes) && n in nodes && m in nodes
    ensures nodes[n].slaveof.Some? ==> nodes[n].slaveof.value in nodes
    ensures m in AsMaster(nodes, n)
    ensures m != n ==>
              AsMaster(nodes, n)[m].isMaster == nodes[m].isMaster && AsMaster(nodes, n)[m].slaveof == nodes[m].slaveof
  {
    MasterKnown(nodes, n);
    UnlistedRoles(nodes, n);
    hide Linked;
    hide OnlyRoles;
    hide Free;
    hide Unlisted;
  }

  lemma DemotedRoles(nodes: map<Name, Node>, n: Name)
    requires Linked(nodes) && n in nodes
    ensures OnlyRoles(nodes, Demoted(nodes, n)) && Linked(Demoted(nodes, n)) && Demoted(nodes, n).Keys == nodes.Keys
    ensures !Demoted(nodes, n)[n].isMaster && Demoted(nodes, n)[n].slaveof == nodes[n].slaveof
  {
    SameRoles(nodes);
    hide Linked;
    hide OnlyRoles;
    hide Free;
    if nodes[n].isMaster {
      var t := RoleChanged(nodes, n, false);
      var u := ListChanged(t, n, {});
      RolesTrans(nodes, t, u);
    }
  }

  lemma TurnedRoles(nodes: map<Name, Node>, n: Name, master: Option<Name>)
    requires Linked(nodes) && n in nodes
    ensures nodes[n].slaveof.Some? ==> nodes[n].slaveof.value in nodes
    ensures OnlyRoles(nodes, Turned(nodes, n, master)) && Linked(Turned(nodes, n, master))
    ensures n in Turned(nodes, n, master) && !Turned(nodes, n, master)[n].isMaster
    ensures Turned(nodes, n, master)[n].slaveof ==
            if master.Some? && master.value in nodes then master else nodes[n].slaveof
  {
    DemotedRoles(nodes, n);
    var d := Demoted(nodes, n);
    UnlistedRoles(d, n);
    MasterKnown(nodes, n);
    if master.Some? && master.value in d && d[n].slaveof != master {
      ListedRoles(Unlisted(d, n), n, master.value);
      RolesTrans(d, Unlisted(d, n), Listed(Unlisted(d, n), n, master.value));
      RolesTrans(nodes, d, Listed(Unlisted(d, n), n, master.value));
    }
    hide OnlyRoles;
    hide Linked;
    hide Demoted;
    hide Listed;
    hide Unlisted;
    hide Free;
  }

  lemma FollowingRoles(nodes: map<Name, Node>, me: Name, n: Name)
    requires Linked(nodes) && me in nodes && n in nodes
    ensures nodes[me].slaveof.Some? ==> nodes[me].slaveof.value in nodes
    ensures OnlyRoles(nodes, Following(nodes, me, n)) && Linked(Following(nodes, me, n))
    ensures me in Following(nodes, me, n) && Following(nodes, me, n)[me].slaveof == Some(n)
    ensures !Following(nodes, me, n)[me].isMaster
  {
    UnlistedRoles(nodes, me);
    MasterKnown(nodes, me);
    hide OnlyRoles;
    hide Linked;
    hide Listed;
    hide Unlisted;
    hide Free;
    var d: map<Name, Node>;
    if nodes[me].isMaster {
      d := RoleChanged(nodes, me, false);
    } else {
      d := Unlisted(nodes, me);
    }
    ListedRoles(d, me, n);
    RolesTrans(nodes, d, Listed(d, me, n));
  }

  lemma RemovedDangling(nodes: map<Name, Node>, n: Name)
    requires n in nodes && Dangles(nodes, n)
    ensures !Linked(Removed(nodes, n))
  {
    var r := Removed(nodes, n);
    var m :| m in nodes && m != n && nodes[m].slaveof == Some(n) && !(nodes[n].isMaster && m in nodes[n].slaves);
    assert r[m].slaveof == Some(n) && n !in r;
  }

  lemma RemovedMaster(nodes: map<Name, Node>, n: Name, m: Name)
    requires Linked(nodes) && n in nodes && !Dangles(nodes, n) && m in Removed(nodes, n)
    ensures Removed(nodes, n)[m].slaveof.Some? ==> Removed(nodes, n)[m].slaveof.value in Removed(nodes, n)
    ensures Removed(nodes, n)[m].isMaster ==> Removed(nodes, n)[m].slaveof == None
  {
  }

  /** Removing a node keeps the links if and only if every other node that names it as its master is on
      its list, and it is a master. */
  lemma RemovedLinked(nodes: map<Name, Node>, n: Name)
    requires Linked(nodes) && n in nodes
    ensures Linked(Removed(nodes, n)) <==> !Dangles(nodes, n)
  {
    hide *;
    if Dangles(nodes, n) {
      RemovedDangling(nodes, n);
    } else {
      var r := Removed(nodes, n);
      RemovedKeys(nodes, n);
      forall m | m in r
        ensures r[m].slaveof.Some? ==> r[m].slaveof.value in r
        ensures r[m].isMaster ==> r[m].slaveof == None
      {
        RemovedMaster(nodes, n, m);
      }
      forall m, s | m in r && s in r[m].slaves ensures s in r && r[s].slaveof == Some(m) {
        RemovedSlave(nodes, n, m, s);
      }
      LinkedBy(r);
    }
  }

  lemma LinkedBy(r: map<Name, Node>)
    requires forall m :: m in r ==> r[m].slaveof.Some? ==> r[m].slaveof.value in r
    requires forall m :: m in r ==> r[m].isMaster ==> r[m].slaveof == None
    requires forall m, s :: m in r && s in r[m].slaves ==> s in r && r[s].slaveof == Some(m)
    ensures Linked(r)
  {
  }

  lemma RemovedKeys(nodes: map<Name, Node>, n: Name)
    requires n in nodes
    ensures Removed(nodes, n).Keys == nodes.Keys - {n}
  {
  }

  lemma RemovedSlave(nodes: map<Name, Node>, n: Name, m: Name, s: Name)
    requires Linked(nodes) && n in nodes && m in nodes && m != n && s in Removed(nodes, n)[m].slaves
    ensures s in Removed(nodes, n) && Removed(nodes, n)[s].slaveof == Some(m)
  {
    hide Linked;
    SlaveFollows(nodes, m, s);
    MasterFollowsNone(nodes, n);
    if s in nodes[n].slaves {
      SlaveFollows(nodes, n, s);
    }
  }

  lemma SlaveFollows(nodes: map<Name, Node>, n: Name, s: Name)
    requires Linked(nodes) && n in nodes
    ensures s in nodes[n].slaves ==> s in nodes && nodes[s].slaveof == Some(n)
  {
  }

  lemma MasterFollowsNone(nodes: map<Name, Node>, n: Name)
    requires Linked(nodes) && n in nodes
    ensures nodes[n].isMaster ==> nodes[n].slaveof == None
  {
  }

  /** The failure exists: a master with one slave turns into a slave of a third node and is removed; its
      slave still names it as its master, and it is not known any more. */
  lemma SlaveLeftDangling(a: Name, b: Name, s: Name) returns (nodes: map<Name, Node>)
    requires a != b && a != s && b != s
    ensures Linked(nodes) && a in nodes && s in nodes && nodes[s].slaveof == Some(a) && s in nodes[a].slaves
    ensures nodes[a].slaveof.Some? ==> nodes[a].slaveof.value in nodes
    ensures var turned := Turned(nodes, a, Some(b));
      && Linked(turned) && a in turned
      && s in Removed(turned, a) && Removed(turned, a)[s].slaveof == Some(a) && a !in Removed(turned, a)
  {
    var master := Node(0, true, None, {}, false, 0, Zeros(), 0);
    nodes := map[a := master.(slaves := {s}), b := master, s := master.(isMaster := false, slaveof := Some(a))];
    assert Linked(nodes);
    TurnedRoles(nodes, a, Some(b));
    hide Linked;
    hide OnlyRoles;
    hide Zeros;
  }

  // ---- Slots and roles ----

  /** Who follows whom does not matter for the agreement on slots. */
  lemma RolesAgree(a: map<Name, Node>, b: map<Name, Node>, slots: seq<Option<Name>>)
    requires Agree(a, slots) && OnlyRoles(a, b)
    ensures Agree(b, slots)
  {
    hide TestBit;
    hide Bits;
    forall m, q: nat | m in b && q < SLOTS
      ensures |b[m].slots| == SLOTS / 8 && (TestBit(b[m].slots, q) <==> slots[q] == Some(m))
    {
      NodeLength(a[m]);
      assert TestBit(a[m].slots, q) <==> slots[q] == Some(m);
    }
  }

  ghost predicate SameLinks(a: Node, b: Node) {
    a.slaveof == b.slaveof && a.slaves == b.slaves && a.isMaster == b.isMaster
  }

  lemma LinksLinked(a: map<Name, Node>, b: map<Name, Node>)
    requires Linked(a) && a.Keys == b.Keys && forall n :: n in a ==> SameLinks(a[n], b[n])
    ensures Linked(b)
  {
    assert forall n :: n in b ==> n in a && SameLinks(a[n], b[n]);
  }

  lemma RestLinked(a: map<Name, Node>, b: map<Name, Node>)
    requires Linked(a) && SameRest(a, b)
    ensures Linked(b)
  {
    hide Linked;
    forall n | n in a ensures SameLinks(a[n], b[n]) {
      assert Rest(a[n]) == Rest(b[n]);
    }
    LinksLinked(a, b);
  }
}
