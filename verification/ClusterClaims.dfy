/** Slot claims on the node's own state: `clusterUpdateSlotsConfigWith` of cluster.c. */
module ClusterClaims {
  import opened Options
  import opened ClusterSlots
  import opened ClusterRoles
  import opened ClusterTable

  /** The view the loop works on still has, for slot `j`, what it had at the start. */
  ghost predicate Untouched(start: View, now: View, j: nat) {
    && ViewOK(start) && ViewOK(now) && j < SLOTS
    && now.epochs == start.epochs
    && now.slots[j] == start.slots[j]
    && now.importing == start.importing
  }

  lemma SameTakes(start: View, now: View, c: Claim, j: nat)
    requires Untouched(start, now, j) && ClaimOK(c)
    ensures Takes(now, c, j) <==> Takes(start, c, j)
  {
    hide TestBit;
  }

  /** One slot of a claim (cluster.c:1489-1523). */
  method ClaimSlot(k: Cluster, c: Claim, j: nat, ghost start: View) returns (taken: bool)
    requires k.SlotsOK() && c.sender in k.nodes && ClaimOK(c)
    requires Untouched(start, k.Now(), j)
    modifies k, k.slots
    ensures k.SlotsOK() && SameRest(old(k.nodes), k.nodes)
    ensures taken == Takes(start, c, j)
    ensures k.slots[..] == if taken then old(k.slots[..])[j := Some(c.sender)] else old(k.slots[..])
  {
    SameTakes(start, k.Now(), c, j);
    hide NodeOK;
    hide TestBit;
    hide Untouched;
    if TestBit(c.slots, j) {
      if k.slots[j] == Some(c.sender) || k.importing[j].Some? {
        return false;
      }
      if k.slots[j].None? || k.nodes[k.slots[j].value].configEpoch < c.epoch {
        k.Rebind(c.sender, j);
        return true;
      }
    }
    return false;
  }

  /** The claim has been applied to the slots below `j`. */
  ghost predicate AppliedTo(start: View, now: View, c: Claim, j: nat)
    requires ClaimOK(c)
  {
    && ViewOK(start) && ViewOK(now) && now.epochs == start.epochs && now.importing == start.importing
    && forall k: nat :: k < SLOTS ==>
         now.slots[k] == if k < j && Takes(start, c, k) then Some(c.sender) else start.slots[k]
  }

  lemma NoneApplied(start: View, c: Claim)
    requires ViewOK(start) && ClaimOK(c)
    ensures AppliedTo(start, start, c, 0)
  {
    hide Takes;
  }

  lemma AllApplied(start: View, now: View, c: Claim)
    requires ClaimOK(c) && AppliedTo(start, now, c, SLOTS)
    ensures now.slots == Rebound(start, c)
  {
    hide Takes;
  }

  lemma ApplyNext(start: View, now: View, next: View, c: Claim, j: nat)
    requires ClaimOK(c) && AppliedTo(start, now, c, j) && j < SLOTS && ViewOK(next)
    requires next.epochs == start.epochs && next.importing == start.importing
    requires next.slots == if Takes(start, c, j) then now.slots[j := Some(c.sender)] else now.slots
    ensures AppliedTo(start, next, c, j + 1)
  {
    hide Takes;
  }

  /** The slots below `j` that the claim takes from `owner`. */
  ghost predicate Loses(start: View, c: Claim, owner: Option<Name>, j: nat)
    requires ViewOK(start) && ClaimOK(c) && j < SLOTS
  {
    start.slots[j] == owner && Takes(start, c, j)
  }

  ghost predicate LostBelow(start: View, c: Claim, owner: Option<Name>, j: nat)
    requires ViewOK(start) && ClaimOK(c) && j <= SLOTS
  {
    exists i: nat :: i < j && Loses(start, c, owner, i)
  }

  lemma NoDirty(start: View, c: Claim, me: Name, keys: set<nat>)
    requires ViewOK(start) && ClaimOK(c)
    ensures Dirty(start, c, me, keys, 0) == []
    ensures forall owner :: !LostBelow(start, c, owner, 0)
  {
  }

  lemma DirtyNext(start: View, c: Claim, me: Name, keys: set<nat>, j: nat)
    requires ViewOK(start) && ClaimOK(c) && j < SLOTS
    ensures Dirty(start, c, me, keys, j + 1) ==
            Dirty(start, c, me, keys, j) + if j in keys && Loses(start, c, Some(me), j) then [j] else []
  {
  }

  lemma LostNext(start: View, c: Claim, owner: Option<Name>, j: nat)
    requires ViewOK(start) && ClaimOK(c) && j < SLOTS
    ensures LostBelow(start, c, owner, j + 1) <==> LostBelow(start, c, owner, j) || Loses(start, c, owner, j)
  {
    hide Loses;
  }

  /** The slots this node lost while it holds keys in them. */
  ghost function Dirty(start: View, c: Claim, me: Name, keys: set<nat>, j: nat): (r: seq<nat>)
    requires ViewOK(start) && ClaimOK(c) && j <= SLOTS
    ensures forall k: nat :: k in r <==> k < j && k in keys && Loses(start, c, Some(me), k)
    ensures forall i, k :: 0 <= i < k < |r| ==> r[i] < r[k]
  {
    if j == 0 then []
    else
      var r := Dirty(start, c, me, keys, j - 1);
      assert forall i :: 0 <= i < |r| ==> r[i] in r;
      if j - 1 in keys && Loses(start, c, Some(me), j - 1) then r + [j - 1] else r
  }

  /** The loop of `clusterUpdateSlotsConfigWith` (cluster.c:1488-1525): the slots claimed with a greater
      epoch are rebound. `lost` says whether the current master lost a slot, and `dirty` lists the slots
      this node lost while holding keys in them. */
  method RebindClaimed(k: Cluster, c: Claim, keys: set<nat>) returns (lost: bool, dirty: seq<nat>)
    requires k.SlotsOK() && c.sender in k.nodes && ClaimOK(c)
    modifies k, k.slots
    ensures k.SlotsOK() && SameRest(old(k.nodes), k.nodes)
    ensures ViewOK(old(k.Now())) && k.Now().slots == Rebound(old(k.Now()), c)
    ensures lost <==> LostBelow(old(k.Now()), c, old(k.CurrentMaster()), SLOTS)
    ensures dirty == Dirty(old(k.Now()), c, k.myself, keys, SLOTS)
  {
    ghost var start, nodes0 := k.Now(), k.nodes;
    var master := k.CurrentMaster();
    hide NodeOK;
    hide TestBit;
    hide Takes;
    hide AppliedTo;
    hide LostBelow;
    hide Dirty;
    hide Agree;
    NoDirty(start, c, k.myself, keys);
    NoneApplied(start, c);
    lost, dirty := false, [];
    for j := 0 to SLOTS
      invariant k.SlotsOK() && SameRest(nodes0, k.nodes) && AppliedTo(start, k.Now(), c, j)
      invariant lost <==> LostBelow(start, c, master, j)
      invariant dirty == Dirty(start, c, k.myself, keys, j)
    {
      ghost var now := k.Now();
      AppliedUntouched(start, now, c, j);
      LostNext(start, c, master, j);
      DirtyNext(start, c, k.myself, keys, j);
      var was := k.slots[j];
      assert was == start.slots[j];
      ghost var nodes1 := k.nodes;
      var taken := ClaimSlot(k, c, j, start);
      SameEpochs(nodes1, k.nodes);
      ApplyNext(start, now, k.Now(), c, j);
      if taken && was == Some(k.myself) && j in keys {
        dirty := dirty + [j];
      }
      if taken && was == master {
        lost := true;
      }
    }
    AllApplied(start, k.Now(), c);
    AppliedUntouched(start, k.Now(), c, SLOTS);
  }

  lemma AppliedUntouched(start: View, now: View, c: Claim, j: nat)
    requires ClaimOK(c) && AppliedTo(start, now, c, j)
    ensures ViewOK(start) && ViewOK(now) && now.epochs == start.epochs && now.importing == start.importing
    ensures j < SLOTS ==> Untouched(start, now, j) && now.slots[j] == start.slots[j]
  {
    hide Takes;
  }

  /** The master this node serves slots for lost a slot to the claim, and has none left. */
  ghost predicate Emptied(v: View, c: Claim, master: Option<Name>)
    requires ViewOK(v) && ClaimOK(c)
  {
    && master.Some? && LostBelow(v, c, master, SLOTS)
    && forall j :: 0 <= j < SLOTS ==> Rebound(v, c)[j] != master
  }

  /** A slot that is claimed, unbound and not being imported. */
  ghost predicate FreeSlot(v: View, c: Claim, j: nat)
    requires ViewOK(v) && ClaimOK(c) && j < SLOTS
  {
    Claims(c, j) && v.slots[j] == None && v.importing[j] == None
  }

  ghost predicate AnyFree(v: View, c: Claim)
    requires ViewOK(v) && ClaimOK(c)
  {
    exists j: nat :: j < SLOTS && FreeSlot(v, c, j)
  }

  lemma FreeIsLost(v: View, c: Claim)
    requires ViewOK(v) && ClaimOK(c)
    ensures LostBelow(v, c, None, SLOTS) <==> AnyFree(v, c)
  {
    hide Claims;
    if LostBelow(v, c, None, SLOTS) {
      var j: nat :| j < SLOTS && Loses(v, c, None, j);
      assert FreeSlot(v, c, j);
    }
    if AnyFree(v, c) {
      var j: nat :| j < SLOTS && FreeSlot(v, c, j);
      assert Loses(v, c, None, j);
    }
  }

  /** This node serves a slot that the claim leaves it. */
  ghost predicate KeepsSlot(v: View, c: Claim, me: Name)
    requires ViewOK(v) && ClaimOK(c)
  {
    exists j :: 0 <= j < SLOTS && Rebound(v, c)[j] == Some(me)
  }

  /** How a claim ends: with keys to delete in the slots lost, or with the process. A slave whose master
      is unknown follows the null pointer to its slot count (cluster.c:1535), and the assertion that the
      node has no slots fails when it is made to follow the sender (cluster.c:3637). */
  datatype Ending = Done(dirty: seq<nat>) | NullMaster | StillServing

  /** The exact conditions, on the state before the call. */
  ghost predicate FollowsNull(v: View, c: Claim, me: Name, master: Option<Name>)
    requires ViewOK(v) && ClaimOK(c)
  {
    c.sender != me && master == None && AnyFree(v, c)
  }

  ghost predicate AssertFails(v: View, c: Claim, me: Name, master: Option<Name>)
    requires ViewOK(v) && ClaimOK(c)
  {
    c.sender != me && Emptied(v, c, master) && KeepsSlot(v, c, me)
  }

  /** The view after a node is heard at an epoch (cluster.c:1626-1630, 1984). */
  ghost function Raised(v: View, n: Name, epoch: nat): View
    requires n in v.epochs
  {
    if epoch > v.epochs[n] then v.(epochs := v.epochs[n := epoch]) else v
  }

  /** The claim was applied, and at most the importing states were closed. */
  ghost predicate Applied(v: View, w: View, c: Claim, me: Name)
    requires ViewOK(v) && ClaimOK(c)
  {
    && w.epochs == v.epochs
    && w.slots == (if c.sender == me then v.slots else Rebound(v, c))
    && |w.importing| == SLOTS
    && (w.importing == v.importing || forall j :: 0 <= j < SLOTS ==> w.importing[j] == None)
  }

  /** A claim on slot 0 alone. */
  function ClaimZero(sender: Name, epoch: nat): Claim {
    Claim(sender, epoch, SetBit(Zeros(), 0))
  }

  lemma ClaimsZero(sender: Name, epoch: nat)
    ensures ClaimOK(ClaimZero(sender, epoch))
    ensures forall j: nat :: j < SLOTS ==> (Claims(ClaimZero(sender, epoch), j) <==> j == 0)
  {
    ZerosHaveNoBits();
    SameLength(Zeros(), 0);
    hide TestBit;
    hide SetBit;
    hide Zeros;
    forall j: nat | j < SLOTS ensures TestBit(SetBit(Zeros(), 0), j) <==> j == 0 {
      SetBitTests(Zeros(), 0, j);
    }
  }

  /** Both ends happen: a slave that does not know its master hears a claim on an unbound slot, and a
      slave that serves slot 1 itself hears a claim on the last slot of its master. */
  lemma ClaimsThatKill(me: Name, m: Name, sender: Name) returns (v: View, w: View)
    requires me != sender && m != sender && me != m
    ensures ViewOK(v) && ViewOK(w) && ClaimOK(ClaimZero(sender, 1))
    ensures FollowsNull(v, ClaimZero(sender, 1), me, None)
    ensures AssertFails(w, ClaimZero(sender, 1), me, Some(m))
  {
    var epochs := map[me := 0, m := 0, sender := 1];
    var free := seq(SLOTS, _ => None);
    v := View(epochs, free, free);
    w := View(epochs, seq(SLOTS, j => if j == 0 then Some(m) else if j == 1 then Some(me) else None), free);
    ClaimsZero(sender, 1);
    var c := ClaimZero(sender, 1);
    hide Claims;
    hide ClaimZero;
    assert FreeSlot(v, c, 0);
    assert Loses(w, c, Some(m), 0);
    assert Rebound(w, c)[1] == Some(me);
  }

  /** The current master lost slots and has none left, and this node can follow the sender. */
  ghost predicate Follows(v: View, c: Claim, me: Name, master: Option<Name>)
    requires ViewOK(v) && ClaimOK(c)
  {
    Emptied(v, c, master) && !KeepsSlot(v, c, me)
  }

  /** What is decided after the loop: how the call ends, unless by following the sender. */
  ghost predicate Decided(v: View, c: Claim, me: Name, master: Option<Name>, keys: set<nat>, r: Ending, follow: bool)
    requires ViewOK(v) && ClaimOK(c)
  {
    && (r.NullMaster? <==> FollowsNull(v, c, me, master))
    && (r.StillServing? <==> AssertFails(v, c, me, master))
    && (follow <==> Follows(v, c, me, master))
    && (r.Done? ==> r.dirty == if follow then [] else Dirty(v, c, me, keys, SLOTS))
    && (follow ==> r.Done?)
  }

  lemma NotLost(v: View, c: Claim, me: Name, master: Option<Name>, keys: set<nat>)
    requires ViewOK(v) && ClaimOK(c) && c.sender != me && !LostBelow(v, c, master, SLOTS)
    ensures Decided(v, c, me, master, keys, Done(Dirty(v, c, me, keys, SLOTS)), false)
  {
    FreeIsLost(v, c);
    hide LostBelow;
    hide AnyFree;
    hide Dirty;
    hide Rebound;
  }

  lemma NullLost(v: View, c: Claim, me: Name, keys: set<nat>)
    requires ViewOK(v) && ClaimOK(c) && c.sender != me && LostBelow(v, c, None, SLOTS)
    ensures Decided(v, c, me, None, keys, NullMaster, false)
  {
    FreeIsLost(v, c);
    hide LostBelow;
    hide AnyFree;
    hide Rebound;
  }

  /** The current master lost a slot: has it any left, and has this node? */
  lemma MasterLost(v: View, c: Claim, me: Name, m: Name, keys: set<nat>, some: bool, mine: bool)
    requires ViewOK(v) && ClaimOK(c) && c.sender != me && LostBelow(v, c, Some(m), SLOTS)
    requires some <==> exists j :: 0 <= j < SLOTS && Rebound(v, c)[j] == Some(m)
    requires mine <==> exists j :: 0 <= j < SLOTS && Rebound(v, c)[j] == Some(me)
    ensures some ==> Decided(v, c, me, Some(m), keys, Done(Dirty(v, c, me, keys, SLOTS)), false)
    ensures !some && mine ==> Decided(v, c, me, Some(m), keys, StillServing, false)
    ensures !some && !mine ==> Decided(v, c, me, Some(m), keys, Done([]), true)
  {
    hide LostBelow;
    hide AnyFree;
    hide Dirty;
    hide Rebound;
  }

  /** The loop and the decision after it (cluster.c:1488-1535): whether to follow the sender. */
  method Decide(k: Cluster, c: Claim, keys: set<nat>) returns (r: Ending, follow: bool)
    requires k.SlotsOK() && c.sender in k.nodes && ClaimOK(c) && c.sender != k.myself
    requires MasterKnownIn(k.nodes, k.myself)
    modifies k, k.slots
    ensures k.SlotsOK() && SameRest(old(k.nodes), k.nodes) && ViewOK(old(k.Now()))
    ensures k.slots[..] == Rebound(old(k.Now()), c)
    ensures Decided(old(k.Now()), c, k.myself, MasterOf(old(k.nodes), k.myself), keys, r, follow)
    ensures follow ==> k.nodes[k.myself].numslots == 0
  {
    ghost var v, me := k.Now(), k.myself;
    EnoughForView(k.nodes, k.slots[..]);
    assert ViewOK(v) && k.slots.Length == SLOTS;
    hide Rebound;
    hide Decided;
    hide LostBelow;
    hide Agree;
    var master := k.CurrentMaster();
    var lost, lostKeys := RebindClaimed(k, c, keys);
    hide SameRest;
    NoneCounted(k.nodes, k.slots[..], k.myself);
    if !lost {
      NotLost(v, c, me, master, keys);
      return Done(lostKeys), false;
    }
    if master.None? {
      NullLost(v, c, me, keys);
      return NullMaster, false;
    }
    assert master.value in k.nodes by { SameRestKeys(old(k.nodes), k.nodes); }
    NoneCounted(k.nodes, k.slots[..], master.value);
    MasterLost(v, c, me, master.value, keys, k.nodes[master.value].numslots != 0, k.nodes[me].numslots != 0);
    if k.nodes[master.value].numslots != 0 {
      return Done(lostKeys), false;
    }
    if k.nodes[k.myself].numslots != 0 {
      return StillServing, false;
    }
    return Done([]), true;
  }

  /** The end of `clusterUpdateSlotsConfigWith` (cluster.c:1535-1541). */
  method FollowSender(k: Cluster, n: Name)
    requires k.Valid() && n in k.nodes && n != k.myself && k.nodes[k.myself].numslots == 0
    modifies k, k.importing
    ensures k.Valid() && k.nodes.Keys == old(k.nodes).Keys && Epochs(k.nodes) == Epochs(old(k.nodes))
    ensures MasterKnownIn(old(k.nodes), k.myself) && k.nodes == Following(old(k.nodes), k.myself, n)
    ensures k.importing[..] == Closed(old(k.nodes)[k.myself].isMaster, old(k.importing[..]))
  {
    ghost var nodes0 := k.nodes;
    FollowingRoles(nodes0, k.myself, n);
    k.SetMaster(n);
    RolesEpochs(nodes0, k.nodes);
    hide Agree;
    hide Linked;
    hide OnlyRoles;
    hide Following;
  }

  /** A master that turns into a slave closes all open slots. */
  function Closed(wasMaster: bool, importing: seq<Option<Name>>): (r: seq<Option<Name>>)
    ensures |r| == |importing|
    ensures forall j :: 0 <= j < |r| ==> r[j] == if wasMaster then None else importing[j]
  {
    if wasMaster then seq(|importing|, _ => None) else importing
  }

  /** What a claim does: the slots are rebound; the process ends exactly under the two conditions; a node
      whose master is left without slots follows the sender, and the other nodes keep all but their slots
      and lists of slaves; otherwise the keys to delete are returned. */
  ghost predicate Ended(v: View, w: View, c: Claim, me: Name, keys: set<nat>, nodes0: map<Name, Node>,
                        nodes: map<Name, Node>, r: Ending)
    requires ViewOK(v) && ClaimOK(c) && MasterKnownIn(nodes0, me) && c.sender in nodes0
  {
    && Applied(v, w, c, me)
    && (r.NullMaster? <==> FollowsNull(v, c, me, MasterOf(nodes0, me)))
    && (r.StillServing? <==> AssertFails(v, c, me, MasterOf(nodes0, me)))
    && if c.sender == me then nodes == nodes0 && w == v && r == Done([])
       else if Follows(v, c, me, MasterOf(nodes0, me))
       then SameRest(Following(nodes0, me, c.sender), nodes) && r == Done([])
            && w.importing == Closed(nodes0[me].isMaster, v.importing)
       else SameRest(nodes0, nodes) && w.importing == v.importing && (r.Done? ==> r.dirty == Dirty(v, c, me, keys, SLOTS))
  }

  lemma DecidedEnds(v: View, w: View, c: Claim, me: Name, keys: set<nat>, nodes0: map<Name, Node>,
                    nodes: map<Name, Node>, r: Ending, follow: bool)
    requires ViewOK(v) && ClaimOK(c) && MasterKnownIn(nodes0, me) && c.sender in nodes0 && c.sender != me
    requires Decided(v, c, me, MasterOf(nodes0, me), keys, r, follow) && Applied(v, w, c, me)
    requires if follow then SameRest(Following(nodes0, me, c.sender), nodes) &&
                            w.importing == Closed(nodes0[me].isMaster, v.importing)
             else SameRest(nodes0, nodes) && w.importing == v.importing
    ensures Ended(v, w, c, me, keys, nodes0, nodes, r)
  {
    hide Follows;
    hide FollowsNull;
    hide AssertFails;
    hide Dirty;
    hide Applied;
    hide SameRest;
    hide Following;
    hide Closed;
  }

  /** The claim applied, whether the importing states were kept or closed. */
  lemma ClosedApplied(v: View, w: View, c: Claim, me: Name, closed: bool)
    requires ViewOK(v) && ClaimOK(c) && c.sender != me && w.epochs == v.epochs && w.slots == Rebound(v, c)
    requires w.importing == Closed(closed, v.importing)
    ensures Applied(v, w, c, me)
  {
    hide Rebound;
  }

  /** `clusterUpdateSlotsConfigWith` (cluster.c:1465-1553); the caller deletes the keys in the slots
      returned. A node whose master, or which itself, is left without slots follows the sender. */
  method UpdateSlotsConfigWith(k: Cluster, c: Claim, keys: set<nat>) returns (r: Ending)
    requires k.Valid() && c.sender in k.nodes && ClaimOK(c)
    modifies k, k.slots, k.importing
    ensures k.Valid() && ViewOK(old(k.Now())) && k.nodes.Keys == old(k.nodes).Keys
    ensures MasterKnownIn(old(k.nodes), k.myself)
    ensures Ended(old(k.Now()), k.Now(), c, k.myself, keys, old(k.nodes), k.nodes, r)
  {
    hide Rebound;
    hide Decided;
    hide Ended;
    hide Linked;
    hide Agree;
    hide Epochs;
    ghost var v, nodes0 := k.Now(), k.nodes;
    MasterKnown(k.nodes, k.myself);
    EnoughForView(k.nodes, k.slots[..]);
    if c.sender == k.myself {
      MineEnds(v, c, k.myself, keys, nodes0);
      return Done([]);
    }
    var follow;
    r, follow := Decide(k, c, keys);
    RestLinked(nodes0, k.nodes);
    SameEpochs(nodes0, k.nodes);
    SameRestKeys(nodes0, k.nodes);
    RestParts(nodes0, k.nodes, k.myself);
    FollowingRest(nodes0, k.nodes, k.myself, c.sender);
    SameRestSelf(Following(k.nodes, k.myself, c.sender));
    hide SameRest;
    hide Following;
    hide Closed;
    hide Applied;
    if follow {
      FollowSender(k, c.sender);
    } else {
      NotClosed(v.importing);
    }
    ClosedApplied(v, k.Now(), c, k.myself, follow && nodes0[k.myself].isMaster);
    DecidedEnds(v, k.Now(), c, k.myself, keys, nodes0, k.nodes, r, follow);
  }

  lemma NotClosed(importing: seq<Option<Name>>)
    ensures Closed(false, importing) == importing
  {
  }

  lemma MineEnds(v: View, c: Claim, me: Name, keys: set<nat>, nodes: map<Name, Node>)
    requires ViewOK(v) && ClaimOK(c) && c.sender == me && MasterKnownIn(nodes, me)
    ensures Ended(v, v, c, me, keys, nodes, nodes, Done([]))
  {
  }

  /** A claim that takes nothing leaves all as it is. */
  lemma NothingTaken(v: View, c: Claim, me: Name, keys: set<nat>, nodes: map<Name, Node>)
    requires ViewOK(v) && ClaimOK(c) && MasterKnownIn(nodes, me) && c.sender in nodes
    requires forall j: nat :: j < SLOTS ==> !Takes(v, c, j)
    ensures Ended(v, v, c, me, keys, nodes, nodes, Done([]))
  {
    FreeIsLost(v, c);
    SameRestSelf(nodes);
    NoneDirty(v, c, me, keys, SLOTS);
    assert Rebound(v, c) == v.slots;
    hide Takes;
    hide AnyFree;
    hide Dirty;
    hide SameRest;
    hide Following;
  }

  lemma {:induction false} NoneDirty(v: View, c: Claim, me: Name, keys: set<nat>, n: nat)
    requires ViewOK(v) && ClaimOK(c) && n <= SLOTS && forall j: nat :: j < SLOTS ==> !Takes(v, c, j)
    ensures Dirty(v, c, me, keys, n) == []
  {
    hide Takes;
    if n > 0 {
      NoneDirty(v, c, me, keys, n - 1);
    }
  }

  // ---- Nodes that survive every claim ----

  /** A master, or a slave that knows its master and serves no slots itself. */
  ghost predicate Settled(nodes: map<Name, Node>, slots: seq<Option<Name>>, me: Name) {
    && me in nodes && |slots| == SLOTS
    && (nodes[me].isMaster || (nodes[me].slaveof.Some? && forall j :: 0 <= j < SLOTS ==> slots[j] != Some(me)))
  }

  /** Such a node survives a claim, and is such a node afterwards. */
  lemma SettledSurvives(v: View, w: View, c: Claim, me: Name, keys: set<nat>, nodes0: map<Name, Node>,
                        nodes: map<Name, Node>, r: Ending)
    requires ViewOK(v) && ClaimOK(c) && MasterKnownIn(nodes0, me) && c.sender in nodes0
    requires Ended(v, w, c, me, keys, nodes0, nodes, r) && Settled(nodes0, v.slots, me)
    ensures r.Done? && Settled(nodes, w.slots, me)
  {
    if c.sender != me {
      FollowingMine(nodes0, me, c.sender);
      if SameRest(nodes0, nodes) {
        RestParts(nodes0, nodes, me);
      }
      if SameRest(Following(nodes0, me, c.sender), nodes) {
        RestParts(Following(nodes0, me, c.sender), nodes, me);
      }
    }
    hide SameRest;
    hide Following;
    hide Closed;
    hide Takes;
    hide LostBelow;
    hide AnyFree;
  }

  lemma FollowingMine(nodes: map<Name, Node>, me: Name, n: Name)
    requires MasterKnownIn(nodes, me) && n in nodes && n != me
    ensures me in Following(nodes, me, n) && Following(nodes, me, n)[me].slaveof == Some(n)
    ensures !Following(nodes, me, n)[me].isMaster
  {
  }

  lemma EndedApplied(v: View, w: View, c: Claim, me: Name, keys: set<nat>, nodes0: map<Name, Node>,
                     nodes: map<Name, Node>, r: Ending)
    requires ViewOK(v) && ClaimOK(c) && MasterKnownIn(nodes0, me) && c.sender in nodes0
    requires Ended(v, w, c, me, keys, nodes0, nodes, r)
    ensures Applied(v, w, c, me)
    ensures Settled(nodes0, v.slots, me) ==> r.Done? && Settled(nodes, w.slots, me)
  {
    if Settled(nodes0, v.slots, me) {
      SettledSurvives(v, w, c, me, keys, nodes0, nodes, r);
    }
    hide Applied;
  }

  lemma RolesEpochs(a: map<Name, Node>, b: map<Name, Node>)
    requires OnlyRoles(a, b)
    ensures Epochs(a) == Epochs(b) && a.Keys == b.Keys
  {
  }

  lemma EnoughForView(nodes: map<Name, Node>, slots: seq<Option<Name>>)
    requires Agree(nodes, slots)
    ensures |slots| == SLOTS && forall j :: 0 <= j < SLOTS && slots[j].Some? ==> slots[j].value in Epochs(nodes)
  {
  }

  // ---- Packets ----

  /** A PING, PONG or MEET from a master. */
  ghost predicate PingStep(v: View, w: View, c: Claim, me: Name) {
    && ViewOK(v) && ClaimOK(c)
    && if c.sender in v.epochs then Applied(Raised(v, c.sender, c.epoch), w, c, me) else w == v
  }

  /** An UPDATE about a node: old news is dropped. */
  ghost predicate UpdateStep(v: View, w: View, c: Claim, me: Name) {
    && ViewOK(v) && ClaimOK(c)
    && if c.sender in v.epochs && v.epochs[c.sender] < c.epoch then Applied(Raised(v, c.sender, c.epoch), w, c, me)
       else w == v
  }

  /** Equal bitmaps: the claim would change nothing, so the shortcut at cluster.c:1831-1837 loses nothing. */
  lemma CleanClaimIsNoop(nodes: map<Name, Node>, v: View, c: Claim)
    requires Agree(nodes, v.slots) && ViewOK(v) && ClaimOK(c) && c.sender in nodes && nodes[c.sender].slots == c.slots
    ensures Rebound(v, c) == v.slots
  {
    hide TestBit;
    forall j: nat | j < SLOTS ensures !Takes(v, c, j) {
      if Claims(c, j) {
        assert TestBit(nodes[c.sender].slots, j) <==> v.slots[j] == Some(c.sender);
      }
    }
  }

  /** An equal bitmap: what the whole handler would do is nothing. */
  lemma CleanEnds(nodes: map<Name, Node>, v: View, c: Claim, me: Name, keys: set<nat>)
    requires Agree(nodes, v.slots) && ViewOK(v) && ClaimOK(c) && c.sender in nodes && nodes[c.sender].slots == c.slots
    requires MasterKnownIn(nodes, me)
    ensures Ended(v, v, c, me, keys, nodes, nodes, Done([]))
  {
    forall j: nat | j < SLOTS ensures !Takes(v, c, j) {
      if Claims(c, j) {
        assert TestBit(nodes[c.sender].slots, j) <==> v.slots[j] == Some(c.sender);
      }
    }
    hide *;
    NothingTaken(v, c, me, keys, nodes);
  }

  // ---- What a packet does to the nodes before its claim ----

  function WithEpoch(nodes: map<Name, Node>, n: Name, epoch: nat): map<Name, Node>
    requires n in nodes
  {
    if epoch > nodes[n].configEpoch then nodes[n := nodes[n].(configEpoch := epoch)] else nodes
  }

  /** The epoch is raised, and the node is a master. */
  function Announced(nodes: map<Name, Node>, n: Name, epoch: nat): (r: map<Name, Node>)
    requires MasterKnownIn(nodes, n)
  {
    AsMaster(WithEpoch(nodes, n, epoch), n)
  }

  lemma EpochLinked(nodes: map<Name, Node>, n: Name, epoch: nat)
    requires Linked(nodes) && n in nodes
    ensures Linked(WithEpoch(nodes, n, epoch)) && WithEpoch(nodes, n, epoch).Keys == nodes.Keys
  {
    hide Linked;
    LinksLinked(nodes, WithEpoch(nodes, n, epoch));
  }

  lemma EpochKept(nodes: map<Name, Node>, n: Name, epoch: nat, slots: seq<Option<Name>>)
    requires Linked(nodes) && n in nodes && Agree(nodes, slots)
    ensures Linked(WithEpoch(nodes, n, epoch)) && Agree(WithEpoch(nodes, n, epoch), slots)
    ensures WithEpoch(nodes, n, epoch).Keys == nodes.Keys
  {
    EpochLinked(nodes, n, epoch);
    hide Linked;
    hide Agree;
    if epoch > nodes[n].configEpoch {
      SameSlotsOK(nodes, slots, n, nodes[n].(configEpoch := epoch));
    }
  }

  /** The two changes commute, and what they leave alone. */
  lemma AnnouncedFacts(nodes: map<Name, Node>, n: Name, epoch: nat, me: Name)
    requires Linked(nodes) && n in nodes && me in nodes
    ensures MasterKnownIn(nodes, n) && MasterKnownIn(nodes, me)
    ensures n in AsMaster(nodes, n) && Announced(nodes, n, epoch) == WithEpoch(AsMaster(nodes, n), n, epoch)
    ensures Linked(Announced(nodes, n, epoch)) && Announced(nodes, n, epoch).Keys == nodes.Keys
    ensures MasterKnownIn(Announced(nodes, n, epoch), me)
    ensures me != n ==> MasterOf(Announced(nodes, n, epoch), me) == MasterOf(nodes, me)
  {
    MasterKnown(nodes, n);
    MasterKnown(nodes, me);
    EpochLinked(nodes, n, epoch);
    AsMasterRoles(nodes, n);
    AsMasterRoles(WithEpoch(nodes, n, epoch), n);
    AsMasterElse(WithEpoch(nodes, n, epoch), n, me);
    MasterKnown(Announced(nodes, n, epoch), me);
    Commute(nodes, n, epoch);
    hide Linked;
    hide OnlyRoles;
    hide AsMaster;
  }

  lemma Commute(nodes: map<Name, Node>, n: Name, epoch: nat)
    requires MasterKnownIn(nodes, n)
    ensures n in AsMaster(nodes, n) && MasterKnownIn(WithEpoch(nodes, n, epoch), n)
    ensures AsMaster(WithEpoch(nodes, n, epoch), n) == WithEpoch(AsMaster(nodes, n), n, epoch)
  {
  }

  method RaiseEpoch(k: Cluster, n: Name, epoch: nat)
    requires k.Valid() && n in k.nodes
    modifies k
    ensures k.Valid() && k.nodes == WithEpoch(old(k.nodes), n, epoch) && n in old(k.Now()).epochs
    ensures k.Now() == Raised(old(k.Now()), n, epoch)
  {
    hide Agree;
    hide Linked;
    hide Epochs;
    EpochKept(k.nodes, n, epoch, k.slots[..]);
    EpochShown(k.nodes, n, epoch);
    if epoch > k.nodes[n].configEpoch {
      k.nodes := k.nodes[n := k.nodes[n].(configEpoch := epoch)];
    }
  }

  lemma EpochShown(nodes: map<Name, Node>, n: Name, epoch: nat)
    requires n in nodes
    ensures n in Epochs(nodes) && Epochs(nodes)[n] == nodes[n].configEpoch
    ensures Epochs(WithEpoch(nodes, n, epoch)) ==
            if epoch > nodes[n].configEpoch then Epochs(nodes)[n := epoch] else Epochs(nodes)
  {
  }

  /** The packet says its sender, or the node it is about, is a master. */
  method HearMaster(k: Cluster, n: Name)
    requires k.Valid() && n in k.nodes
    modifies k
    ensures k.Valid() && k.Now() == old(k.Now()) && MasterKnownIn(old(k.nodes), n)
    ensures k.nodes == AsMaster(old(k.nodes), n)
  {
    ghost var nodes0 := k.nodes;
    k.SetNodeAsMaster(n);
    AsMasterRoles(nodes0, n);
    RolesEpochs(nodes0, k.nodes);
    hide Agree;
    hide Linked;
    hide OnlyRoles;
    hide AsMaster;
  }

  /** What a packet about a known node does: the node is a master at the raised epoch, and the claim ends
      as `Ended` says from there. */
  ghost predicate Heard(v: View, w: View, c: Claim, me: Name, keys: set<nat>, nodes0: map<Name, Node>,
                        nodes: map<Name, Node>, r: Ending) {
    && ViewOK(v) && ClaimOK(c) && c.sender in v.epochs && c.sender in nodes0
    && MasterKnownIn(nodes0, c.sender) && c.sender in Announced(nodes0, c.sender, c.epoch)
    && MasterKnownIn(Announced(nodes0, c.sender, c.epoch), me)
    && ViewOK(Raised(v, c.sender, c.epoch))
    && Ended(Raised(v, c.sender, c.epoch), w, c, me, keys, Announced(nodes0, c.sender, c.epoch), nodes, r)
  }

  /** Nothing came of the packet. */
  ghost predicate Ignored(v: View, w: View, nodes0: map<Name, Node>, nodes: map<Name, Node>, r: Ending) {
    w == v && nodes == nodes0 && r == Done([])
  }

  /** In particular: the claim is applied; the process ends exactly under the two conditions on the state
      before the packet; and a settled node survives. */
  lemma HeardEnds(v: View, w: View, c: Claim, me: Name, keys: set<nat>, nodes0: map<Name, Node>,
                  nodes: map<Name, Node>, r: Ending)
    requires Heard(v, w, c, me, keys, nodes0, nodes, r) && Linked(nodes0) && me in nodes0
    ensures c.sender in v.epochs && ViewOK(Raised(v, c.sender, c.epoch))
    ensures Applied(Raised(v, c.sender, c.epoch), w, c, me)
    ensures r.NullMaster? <==> FollowsNull(Raised(v, c.sender, c.epoch), c, me, MasterOf(nodes0, me))
    ensures r.StillServing? <==> AssertFails(Raised(v, c.sender, c.epoch), c, me, MasterOf(nodes0, me))
    ensures Settled(nodes0, v.slots, me) ==> r.Done? && Settled(nodes, w.slots, me)
  {
    hide *;
    HeardParts(v, w, c, me, keys, nodes0, nodes, r);
    var heard := Announced(nodes0, c.sender, c.epoch);
    AnnouncedFacts(nodes0, c.sender, c.epoch, me);
    EndedApplied(Raised(v, c.sender, c.epoch), w, c, me, keys, heard, nodes, r);
    RaisedSlots(v, c.sender, c.epoch);
    if Settled(nodes0, v.slots, me) {
      AnnouncedSettled(nodes0, c.sender, c.epoch, me, v.slots);
    }
    if c.sender == me {
      MineLives(Raised(v, c.sender, c.epoch), c, me, MasterOf(nodes0, me));
      MineLives(Raised(v, c.sender, c.epoch), c, me, MasterOf(heard, me));
    }
  }

  lemma RaisedSlots(v: View, n: Name, epoch: nat)
    requires n in v.epochs
    ensures Raised(v, n, epoch).slots == v.slots && Raised(v, n, epoch).importing == v.importing
  {
  }

  lemma MineLives(v: View, c: Claim, me: Name, master: Option<Name>)
    requires ViewOK(v) && ClaimOK(c) && c.sender == me
    ensures !FollowsNull(v, c, me, master) && !AssertFails(v, c, me, master)
  {
  }

  lemma HeardParts(v: View, w: View, c: Claim, me: Name, keys: set<nat>, nodes0: map<Name, Node>,
                   nodes: map<Name, Node>, r: Ending)
    requires Heard(v, w, c, me, keys, nodes0, nodes, r)
    ensures ViewOK(v) && ClaimOK(c) && c.sender in v.epochs && c.sender in nodes0 && MasterKnownIn(nodes0, c.sender)
    ensures var heard, u := Announced(nodes0, c.sender, c.epoch), Raised(v, c.sender, c.epoch);
      && MasterKnownIn(heard, me) && me in heard && c.sender in heard && ViewOK(u)
      && Ended(u, w, c, me, keys, heard, nodes, r)
      && (r.NullMaster? <==> FollowsNull(u, c, me, MasterOf(heard, me)))
      && (r.StillServing? <==> AssertFails(u, c, me, MasterOf(heard, me)))
  {
    hide Announced;
    hide Raised;
    hide Applied;
    hide Follows;
    hide FollowsNull;
    hide AssertFails;
    hide SameRest;
    hide Following;
    hide Dirty;
  }

  lemma AnnouncedSettled(nodes: map<Name, Node>, n: Name, epoch: nat, me: Name, slots: seq<Option<Name>>)
    requires Linked(nodes) && n in nodes && Settled(nodes, slots, me)
    ensures MasterKnownIn(nodes, n) && Settled(Announced(nodes, n, epoch), slots, me)
  {
    MasterKnown(nodes, n);
    EpochLinked(nodes, n, epoch);
    AsMasterRoles(WithEpoch(nodes, n, epoch), n);
    AsMasterElse(WithEpoch(nodes, n, epoch), n, me);
    hide Linked;
    hide OnlyRoles;
    hide AsMaster;
  }

  /** The slot part of a PING, PONG or MEET whose sender says it is a master (cluster.c:1619-1630,
      1781-1787, 1828-1843). */
  method ReceivePing(k: Cluster, c: Claim, keys: set<nat>) returns (r: Ending)
    requires k.Valid() && ClaimOK(c)
    modifies k, k.slots, k.importing
    ensures k.Valid() && k.nodes.Keys == old(k.nodes).Keys
    ensures if c.sender in old(k.nodes)
            then Heard(old(k.Now()), k.Now(), c, k.myself, keys, old(k.nodes), k.nodes, r)
            else Ignored(old(k.Now()), k.Now(), old(k.nodes), k.nodes, r)
    ensures PingStep(old(k.Now()), k.Now(), c, k.myself)
  {
    r := Done([]);
    ghost var v, nodes0 := k.Now(), k.nodes;
    EnoughForView(k.nodes, k.slots[..]);
    if c.sender in k.nodes {
      AnnouncedFacts(nodes0, c.sender, c.epoch, k.myself);
      hide Applied;
      hide Ended;
      hide Raised;
      hide Agree;
      hide Linked;
      hide AsMaster;
      hide WithEpoch;
      RaiseEpoch(k, c.sender, c.epoch);
      HearMaster(k, c.sender);
      EnoughForView(k.nodes, k.slots[..]);
      if k.nodes[c.sender].slots != c.slots {
        r := UpdateSlotsConfigWith(k, c, keys);
      } else {
        CleanEnds(k.nodes, k.Now(), c, k.myself, keys);
      }
      HeardEnds(v, k.Now(), c, k.myself, keys, nodes0, k.nodes, r);
    }
  }

  /** An UPDATE packet from a known node (cluster.c:1971-1991). */
  method ReceiveUpdate(k: Cluster, c: Claim, keys: set<nat>) returns (r: Ending)
    requires k.Valid() && ClaimOK(c)
    modifies k, k.slots, k.importing
    ensures k.Valid() && k.nodes.Keys == old(k.nodes).Keys
    ensures if c.sender in old(k.nodes) && old(k.nodes)[c.sender].configEpoch < c.epoch
            then Heard(old(k.Now()), k.Now(), c, k.myself, keys, old(k.nodes), k.nodes, r)
            else Ignored(old(k.Now()), k.Now(), old(k.nodes), k.nodes, r)
    ensures UpdateStep(old(k.Now()), k.Now(), c, k.myself)
  {
    r := Done([]);
    ghost var v, nodes0 := k.Now(), k.nodes;
    EnoughForView(k.nodes, k.slots[..]);
    if c.sender in k.nodes && k.nodes[c.sender].configEpoch < c.epoch {
      AnnouncedFacts(nodes0, c.sender, c.epoch, k.myself);
      hide Applied;
      hide Ended;
      hide Raised;
      hide Agree;
      hide Linked;
      hide AsMaster;
      hide WithEpoch;
      HearMaster(k, c.sender);
      RaiseEpoch(k, c.sender, c.epoch);
      EnoughForView(k.nodes, k.slots[..]);
      r := UpdateSlotsConfigWith(k, c, keys);
      HeardEnds(v, k.Now(), c, k.myself, keys, nodes0, k.nodes, r);
    }
  }
}
