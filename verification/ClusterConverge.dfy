/** Slot claims converge: whatever the order and repetition of the packets, each slot ends with the
    claimant of the greatest configEpoch. */
module ClusterConverge {
  import opened Options
  import opened ClusterSlots
  import opened ClusterClaims

  /** Packets from, or about, a node whose claim is fixed. `Other` is any packet that carries the
      node's epoch in its header but is not asked about slots. */
  datatype Packet = Ping(from: Name) | Update(from: Name) | Other(from: Name)

  /** One claim per node, made at distinct epochs that also differ from this node's own; no known epoch
      is ahead of its node's claim. */
  ghost predicate FixedClaims(v: View, me: Name, claims: map<Name, Claim>) {
    && ViewOK(v) && me in v.epochs && me !in claims
    && (forall n :: n in claims ==> ClaimOK(claims[n]) && claims[n].sender == n)
    && (forall n :: n in claims && n in v.epochs ==> v.epochs[n] <= claims[n].epoch)
    && (forall n :: n in claims ==> n in v.epochs && claims[n].epoch != v.epochs[me])
    && (forall m, n :: m in claims && n in claims && m != n ==> claims[m].epoch != claims[n].epoch)
  }

  /** At the start every slot is unbound or this node's own. */
  ghost predicate OwnOrUnbound(v: View, me: Name)
    requires ViewOK(v)
  {
    forall j :: 0 <= j < SLOTS ==> v.slots[j] == None || v.slots[j] == Some(me)
  }

  ghost predicate Step(v: View, p: Packet, w: View, me: Name, claims: map<Name, Claim>) {
    && ViewOK(v) && p.from in claims && ClaimOK(claims[p.from])
    && match p
       case Ping(n) => PingStep(v, w, claims[n], me)
       case Update(n) => UpdateStep(v, w, claims[n], me)
       case Other(n) => w == if n in v.epochs then Raised(v, n, claims[n].epoch) else v
  }

  ghost predicate Run(v: View, ps: seq<Packet>, vs: seq<View>, me: Name, claims: map<Name, Claim>) {
    && |vs| == |ps| + 1 && vs[0] == v
    && forall i {:trigger ps[i]} :: 0 <= i < |ps| ==> Step(vs[i], ps[i], vs[i + 1], me, claims)
  }

  /** `n` has a claim on slot `j`, counting what this node owned at the start. */
  ghost predicate Claimant(start: View, me: Name, claims: map<Name, Claim>, n: Name, j: nat)
    requires FixedClaims(start, me, claims) && j < SLOTS
  {
    if n == me then start.slots[j] == Some(me) else n in claims && Claims(claims[n], j)
  }

  ghost function ClaimEpoch(start: View, me: Name, claims: map<Name, Claim>, n: Name): nat
    requires FixedClaims(start, me, claims) && (n == me || n in claims)
  {
    if n == me then start.epochs[me] else claims[n].epoch
  }

  /** What holds of a slot after any packets: it is bound to a claimant, known at its claim's epoch. */
  ghost predicate SlotInv(start: View, v: View, me: Name, claims: map<Name, Claim>, j: nat)
    requires FixedClaims(start, me, claims) && j < SLOTS
  {
    && ViewOK(v) && v.epochs.Keys == start.epochs.Keys && v.epochs[me] == start.epochs[me]
    && (forall n :: n in claims ==> v.epochs[n] <= claims[n].epoch)
    && (start.importing[j] == None ==> v.importing[j] == None)
    && (v.slots[j].Some? ==>
          Claimant(start, me, claims, v.slots[j].value, j) &&
          v.epochs[v.slots[j].value] == ClaimEpoch(start, me, claims, v.slots[j].value))
  }

  /** The slot is bound at an epoch of at least `e`. */
  ghost predicate BoundAt(v: View, j: nat, e: nat) {
    ViewOK(v) && j < SLOTS && v.slots[j].Some? && v.epochs[v.slots[j].value] >= e
  }

  lemma RaisedSlot(start: View, v: View, n: Name, me: Name, claims: map<Name, Claim>, j: nat)
    requires FixedClaims(start, me, claims) && j < SLOTS && n in claims && SlotInv(start, v, me, claims, j)
    ensures var w := Raised(v, n, claims[n].epoch);
      && SlotInv(start, w, me, claims, j) && w.epochs[n] == claims[n].epoch
      && forall e :: BoundAt(v, j, e) ==> BoundAt(w, j, e)
  {
    hide Claims;
  }

  lemma AppliedSlot(start: View, v: View, w: View, n: Name, me: Name, claims: map<Name, Claim>, j: nat)
    requires FixedClaims(start, me, claims) && j < SLOTS && n in claims && SlotInv(start, v, me, claims, j)
    requires v.epochs[n] == claims[n].epoch && Applied(v, w, claims[n], me)
    ensures SlotInv(start, w, me, claims, j)
    ensures forall e :: BoundAt(v, j, e) ==> BoundAt(w, j, e)
    ensures start.importing[j] == None && Claims(claims[n], j) ==> BoundAt(w, j, claims[n].epoch)
  {
    hide Claims;
    assert ViewOK(w) by { AppliedView(v, w, claims[n], me); }
  }

  lemma AppliedView(v: View, w: View, c: Claim, me: Name)
    requires ViewOK(v) && ClaimOK(c) && c.sender in v.epochs && Applied(v, w, c, me)
    ensures ViewOK(w)
  {
    hide Takes;
  }

  lemma StepSlot(start: View, v: View, p: Packet, w: View, me: Name, claims: map<Name, Claim>, j: nat)
    requires FixedClaims(start, me, claims) && j < SLOTS
    requires SlotInv(start, v, me, claims, j) && Step(v, p, w, me, claims)
    ensures SlotInv(start, w, me, claims, j)
    ensures forall e :: BoundAt(v, j, e) ==> BoundAt(w, j, e)
    ensures p.Ping? && start.importing[j] == None && Claims(claims[p.from], j) ==> BoundAt(w, j, claims[p.from].epoch)
  {
    var n := p.from;
    var u := Raised(v, n, claims[n].epoch);
    RaisedSlot(start, v, n, me, claims, j);
    if Applied(u, w, claims[n], me) {
      AppliedSlot(start, u, w, n, me, claims, j);
    }
    hide Claims;
    hide Applied;
    hide BoundAt;
    hide Raised;
  }

  lemma StartSlot(start: View, me: Name, claims: map<Name, Claim>, j: nat)
    requires FixedClaims(start, me, claims) && OwnOrUnbound(start, me) && j < SLOTS
    ensures SlotInv(start, start, me, claims, j)
    ensures start.slots[j] == Some(me) ==> me in start.epochs && BoundAt(start, j, start.epochs[me])
  {
  }

  lemma {:induction false} RunSlot(start: View, ps: seq<Packet>, vs: seq<View>, me: Name, claims: map<Name, Claim>,
                                   j: nat, i: nat)
    requires FixedClaims(start, me, claims) && OwnOrUnbound(start, me) && j < SLOTS && i <= |ps|
    requires Run(start, ps, vs, me, claims)
    ensures SlotInv(start, vs[i], me, claims, j)
    ensures start.slots[j] == Some(me) ==> BoundAt(vs[i], j, start.epochs[me])
    ensures start.importing[j] == None ==>
              forall k :: 0 <= k < i && ps[k].Ping? && Claims(claims[ps[k].from], j) ==>
                BoundAt(vs[i], j, claims[ps[k].from].epoch)
  {
    hide SlotInv;
    hide BoundAt;
    StartSlot(start, me, claims, j);
    if i > 0 {
      RunSlot(start, ps, vs, me, claims, j, i - 1);
      assert Step(vs[i - 1], ps[i - 1], vs[i], me, claims);
      StepSlot(start, vs[i - 1], ps[i - 1], vs[i], me, claims, j);
    }
  }

  /** `o` is what the slot must be bound to: the claimant of the greatest epoch, or nobody if there is
      no claimant. */
  ghost predicate Winner(start: View, me: Name, claims: map<Name, Claim>, j: nat, o: Option<Name>)
    requires FixedClaims(start, me, claims) && j < SLOTS
  {
    match o
    case None => forall n :: !Claimant(start, me, claims, n, j)
    case Some(w) =>
      && Claimant(start, me, claims, w, j)
      && forall n :: Claimant(start, me, claims, n, j) ==>
           ClaimEpoch(start, me, claims, n) <= ClaimEpoch(start, me, claims, w)
  }

  lemma WinnerUnique(start: View, me: Name, claims: map<Name, Claim>, j: nat, a: Option<Name>, b: Option<Name>)
    requires FixedClaims(start, me, claims) && j < SLOTS
    requires Winner(start, me, claims, j, a) && Winner(start, me, claims, j, b)
    ensures a == b
  {
    hide Claims;
    if a.Some? && b.Some? {
      SameEpochSameNode(start, me, claims, a.value, b.value);
    }
  }

  lemma SameEpochSameNode(start: View, me: Name, claims: map<Name, Claim>, a: Name, b: Name)
    requires FixedClaims(start, me, claims) && (a == me || a in claims) && (b == me || b in claims)
    ensures a != b ==> ClaimEpoch(start, me, claims, a) != ClaimEpoch(start, me, claims, b)
  {
  }

  /** Once every claim was heard in a ping at least once, every slot not being imported belongs to the
      claimant of the greatest epoch, counting this node's own initial slots as its claim. */
  lemma ClaimsConverge(start: View, ps: seq<Packet>, vs: seq<View>, me: Name, claims: map<Name, Claim>, j: nat)
    requires FixedClaims(start, me, claims) && OwnOrUnbound(start, me)
    requires Run(start, ps, vs, me, claims)
    requires forall n :: n in claims ==> Ping(n) in ps
    requires j < SLOTS && start.importing[j] == None
    ensures ViewOK(vs[|ps|]) && Winner(start, me, claims, j, vs[|ps|].slots[j])
  {
    var v := vs[|ps|];
    RunSlot(start, ps, vs, me, claims, j, |ps|);
    forall n | Claimant(start, me, claims, n, j) ensures BoundAt(v, j, ClaimEpoch(start, me, claims, n)) {
      if n != me {
        var k :| 0 <= k < |ps| && ps[k] == Ping(n);
        assert claims[ps[k].from] == claims[n];
      }
    }
    hide Claims;
  }

  /** Order and repetition do not matter: any two such histories give the same table. */
  lemma OrderIrrelevant(start: View, me: Name, claims: map<Name, Claim>, ps: seq<Packet>, vs: seq<View>,
                        qs: seq<Packet>, ws: seq<View>, j: nat)
    requires FixedClaims(start, me, claims) && OwnOrUnbound(start, me)
    requires Run(start, ps, vs, me, claims) && Run(start, qs, ws, me, claims)
    requires forall n :: n in claims ==> Ping(n) in ps && Ping(n) in qs
    requires j < SLOTS && start.importing[j] == None
    ensures ViewOK(vs[|ps|]) && ViewOK(ws[|qs|]) && vs[|ps|].slots[j] == ws[|qs|].slots[j]
  {
    ClaimsConverge(start, ps, vs, me, claims, j);
    ClaimsConverge(start, qs, ws, me, claims, j);
    WinnerUnique(start, me, claims, j, vs[|ps|].slots[j], ws[|qs|].slots[j]);
  }
}
