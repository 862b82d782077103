/** What a claim did, read off the two slot tables before and after it (`clusterUpdateSlotsConfigWith` of
    cluster.c). */
module ClusterClaimEnds {
  import opened Options
  import opened ClusterSlots
  import opened ClusterRoles
  import opened ClusterTable
  import opened ClusterClaims

  /** A slot goes to the sender if and only if it is claimed, not being imported, and unbound or bound to
      a node of a smaller configEpoch; a slot bound at the same epoch stays. */
  lemma ClaimRule(v: View, w: View, c: Claim, me: Name, j: nat)
    requires ViewOK(v) && ClaimOK(c) && c.sender != me && Applied(v, w, c, me) && j < SLOTS
    ensures |w.slots| == SLOTS
    ensures var greater := v.slots[j] == None || v.epochs[v.slots[j].value] < c.epoch;
      w.slots[j] ==
      if TestBit(c.slots, j) && v.importing[j] == None && greater then Some(c.sender) else v.slots[j]
  {
    hide TestBit;
  }

  /** The node's master lost a slot, and the table after it. */
  ghost predicate Lost(v: View, w: View, m: Option<Name>) {
    |v.slots| == |w.slots| && exists j :: 0 <= j < |v.slots| && v.slots[j] == m && w.slots[j] != m
  }

  ghost predicate Serves(w: View, m: Option<Name>) { exists j :: 0 <= j < |w.slots| && w.slots[j] == m }

  lemma LostIs(v: View, w: View, c: Claim, me: Name, m: Option<Name>)
    requires ViewOK(v) && ClaimOK(c) && c.sender != me && Applied(v, w, c, me)
    ensures LostBelow(v, c, m, SLOTS) <==> Lost(v, w, m)
    ensures Emptied(v, c, m) <==> m.Some? && Lost(v, w, m) && !Serves(w, m)
    ensures KeepsSlot(v, c, me) <==> Serves(w, Some(me))
  {
    hide Claims;
    if LostBelow(v, c, m, SLOTS) {
      var j: nat :| j < SLOTS && Loses(v, c, m, j);
      assert v.slots[j] == m && w.slots[j] != m;
    }
    if Lost(v, w, m) {
      var j: nat :| j < SLOTS && v.slots[j] == m && w.slots[j] != m;
      assert Loses(v, c, m, j);
    }
    hide Takes;
  }

  /** How the claim ends. Let `m` be the node itself if it is a master, else its master. If `m` lost no
      slot or has one left, roles stay, and the keys in the slots this node lost are to be deleted. If
      `m` lost its last slot, the node follows the sender, unless it serves slots itself, which ends the
      process; and so does a claim on an unbound slot if the master is unknown. */
  lemma ClaimOutcome(v: View, w: View, c: Claim, me: Name, keys: set<nat>, nodes0: map<Name, Node>,
                     nodes: map<Name, Node>, r: Ending)
    requires ViewOK(v) && ClaimOK(c) && MasterKnownIn(nodes0, me) && c.sender in nodes0 && c.sender != me
    requires Ended(v, w, c, me, keys, nodes0, nodes, r)
    ensures me in nodes
    ensures var m := if nodes0[me].isMaster then Some(me) else nodes0[me].slaveof;
      && (r.NullMaster? <==> m == None && Lost(v, w, m))
      && (r.StillServing? <==> m.Some? && Lost(v, w, m) && !Serves(w, m) && Serves(w, Some(me)))
      && (m.Some? && Lost(v, w, m) && !Serves(w, m) && !Serves(w, Some(me)) ==>
            r == Done([]) && !nodes[me].isMaster && nodes[me].slaveof == Some(c.sender))
      && (!Lost(v, w, m) || Serves(w, m) ==>
            && nodes[me].isMaster == nodes0[me].isMaster && nodes[me].slaveof == nodes0[me].slaveof
            && (r.Done? ==> forall j: nat ::
                  j in r.dirty <==> j < |v.slots| && v.slots[j] == Some(me) && w.slots[j] != Some(me) && j in keys))
  {
    var m := MasterOf(nodes0, me);
    LostIs(v, w, c, me, m);
    FreeIsLost(v, c);
    RestRoles(nodes0, nodes, me);
    FollowingRole(nodes0, me, c.sender);
    RestRoles(Following(nodes0, me, c.sender), nodes, me);
    hide SameRest;
    hide Following;
    hide Emptied;
    hide KeepsSlot;
    hide AnyFree;
    hide LostBelow;
    hide Lost;
    hide Serves;
    hide Closed;
    DirtyIs(v, w, c, me, keys);
    hide Dirty;
    hide Applied;
  }

  lemma RestRoles(a: map<Name, Node>, b: map<Name, Node>, me: Name)
    requires me in a
    ensures SameRest(a, b) ==> me in b && b[me].isMaster == a[me].isMaster && b[me].slaveof == a[me].slaveof
  {
    if SameRest(a, b) {
      assert Rest(a[me]) == Rest(b[me]);
    }
  }

  lemma FollowingRole(nodes: map<Name, Node>, me: Name, n: Name)
    requires MasterKnownIn(nodes, me) && n in nodes && n != me
    ensures me in Following(nodes, me, n)
    ensures Following(nodes, me, n)[me].slaveof == Some(n) && !Following(nodes, me, n)[me].isMaster
  {
  }

  lemma DirtyIs(v: View, w: View, c: Claim, me: Name, keys: set<nat>)
    requires ViewOK(v) && ClaimOK(c) && c.sender != me && Applied(v, w, c, me)
    ensures forall j: nat :: j in Dirty(v, c, me, keys, SLOTS) <==>
              j < |v.slots| && v.slots[j] == Some(me) && w.slots[j] != Some(me) && j in keys
  {
    hide Claims;
    hide Dirty;
  }
}
