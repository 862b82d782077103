/** Slot bookkeeping of cluster.c as values: which node each slot is bound to is kept three times, in
    the slot table, in a bitmap in each node, and in each node's slot count. */
module ClusterSlots {
  import opened Options

  const SLOTS := 16384

  type Name = string

  /** The fields of `clusterNode` the slot, epoch and failover code reads and writes. `slaves` is the
      node's list of slaves, which holds no name twice; its order is not modelled. */
  datatype Node = Node(
    configEpoch: nat, isMaster: bool, slaveof: Option<Name>, slaves: set<Name>, failed: bool, votedTime: int,
    slots: seq<bv8>, numslots: int)

  // ---- Bitmaps ----

  /** `1 << k` in a byte. */
  function Bit(k: nat): (r: bv8)
    requires k < 8
    ensures r != 0
  {
    if k == 0 then 1 else if k == 1 then 2 else if k == 2 then 4 else if k == 3 then 8
    else if k == 4 then 16 else if k == 5 then 32 else if k == 6 then 64 else 128
  }

  predicate HasBit(x: bv8, k: nat)
    requires k < 8
  {
    x & Bit(k) != 0
  }

  function OrBit(x: bv8, k: nat): bv8
    requires k < 8
  {
    x | Bit(k)
  }

  function AndNotBit(x: bv8, k: nat): bv8
    requires k < 8
  {
    x & !Bit(k)
  }

  /** `bitmapTestBit`. */
  predicate TestBit(b: seq<bv8>, p: nat)
    requires p / 8 < |b|
  {
    HasBit(b[p / 8], p % 8)
  }

  /** `bitmapSetBit` and `bitmapClearBit`. */
  function SetBit(b: seq<bv8>, p: nat): seq<bv8>
    requires p / 8 < |b|
  {
    b[p / 8 := OrBit(b[p / 8], p % 8)]
  }

  function ClearBit(b: seq<bv8>, p: nat): seq<bv8>
    requires p / 8 < |b|
  {
    b[p / 8 := AndNotBit(b[p / 8], p % 8)]
  }

  lemma ByteBits(x: bv8, i: nat, j: nat)
    requires i < 8 && j < 8
    ensures HasBit(OrBit(x, i), j) <==> i == j || HasBit(x, j)
    ensures HasBit(AndNotBit(x, i), j) <==> i != j && HasBit(x, j)
  {
  }

  lemma SetBitTests(b: seq<bv8>, p: nat, q: nat)
    requires p / 8 < |b| && q / 8 < |b|
    ensures TestBit(SetBit(b, p), q) <==> q == p || TestBit(b, q)
    ensures TestBit(ClearBit(b, p), q) <==> q != p && TestBit(b, q)
  {
    hide HasBit;
    hide OrBit;
    hide AndNotBit;
    assert p == 8 * (p / 8) + p % 8 && q == 8 * (q / 8) + q % 8;
    if p / 8 == q / 8 {
      ByteBits(b[p / 8], p % 8, q % 8);
    }
  }

  /** The positions whose bit is set. */
  ghost function Bits(b: seq<bv8>): set<nat> {
    set p: nat | p < 8 * |b| && TestBit(b, p)
  }

  lemma BitsChange(b: seq<bv8>, p: nat)
    requires p / 8 < |b|
    ensures Bits(SetBit(b, p)) == Bits(b) + {p}
    ensures Bits(ClearBit(b, p)) == Bits(b) - {p}
  {
    hide TestBit;
    hide SetBit;
    hide ClearBit;
    assert |SetBit(b, p)| == |b| && |ClearBit(b, p)| == |b| by { SameLength(b, p); }
    forall q: nat | q < 8 * |b|
      ensures q in Bits(SetBit(b, p)) <==> q in Bits(b) + {p}
      ensures q in Bits(ClearBit(b, p)) <==> q in Bits(b) - {p}
    {
      SetBitTests(b, p, q);
    }
  }

  lemma SameLength(b: seq<bv8>, p: nat)
    requires p / 8 < |b|
    ensures |SetBit(b, p)| == |b| && |ClearBit(b, p)| == |b|
  {
  }

  function Zeros(): seq<bv8> {
    seq(SLOTS / 8, _ => 0)
  }

  lemma ZerosHaveNoBits()
    ensures |Zeros()| == SLOTS / 8 && Bits(Zeros()) == {}
    ensures forall q: nat :: q < SLOTS ==> !TestBit(Zeros(), q)
  {
    forall q: nat | q < SLOTS ensures !TestBit(Zeros(), q) {
      NoBit(q % 8);
    }
  }

  lemma NoBit(k: nat)
    requires k < 8
    ensures !HasBit(0, k)
  {
  }

  // ---- Agreement ----

  ghost predicate NodeOK(n: Node) {
    |n.slots| == SLOTS / 8 && n.numslots == |Bits(n.slots)|
  }

  /** Bit `j` of a node's bitmap is set if and only if the slot table binds slot `j` to the node; the
      count is the number of set bits; no slot is bound to an unknown node. */
  ghost predicate Agree(nodes: map<Name, Node>, slots: seq<Option<Name>>) {
    && |slots| == SLOTS
    && (forall n :: n in nodes ==> NodeOK(nodes[n]))
    && (forall j :: 0 <= j < SLOTS && slots[j].Some? ==> slots[j].value in nodes)
    && (forall n, j {:trigger nodes[n], slots[j]} :: n in nodes && 0 <= j < SLOTS ==>
          (TestBit(nodes[n].slots, j) <==> slots[j] == Some(n)))
  }

  /** `clusterNodeSetSlotBit` and `clusterNodeClearSlotBit` (cluster.c:3391-3403). */
  function WithSlot(n: Node, j: nat): Node
    requires j / 8 < |n.slots|
  {
    n.(slots := SetBit(n.slots, j), numslots := if TestBit(n.slots, j) then n.numslots else n.numslots + 1)
  }

  function WithoutSlot(n: Node, j: nat): Node
    requires j / 8 < |n.slots|
  {
    n.(slots := ClearBit(n.slots, j), numslots := if TestBit(n.slots, j) then n.numslots - 1 else n.numslots)
  }

  lemma OneMore(s: set<nat>, p: nat)
    ensures |s + {p}| == |s| + if p in s then 0 else 1
    ensures |s - {p}| == |s| - if p in s then 1 else 0
  {
    if p in s {
      assert s + {p} == s;
      assert s == (s - {p}) + {p};
    } else {
      assert s - {p} == s;
    }
  }

  lemma CountChanges(n: Node, j: nat)
    requires NodeOK(n) && j < SLOTS
    ensures NodeOK(WithSlot(n, j)) && NodeOK(WithoutSlot(n, j))
  {
    hide TestBit;
    hide SetBit;
    hide ClearBit;
    hide Bits;
    SameLength(n.slots, j);
    BitsChange(n.slots, j);
    InBits(n.slots, j);
    OneMore(Bits(n.slots), j);
  }

  lemma InBits(b: seq<bv8>, p: nat)
    requires p / 8 < |b|
    ensures p in Bits(b) <==> TestBit(b, p)
  {
  }

  lemma NodeChanges(n: Node, j: nat)
    requires NodeOK(n) && j < SLOTS
    ensures NodeOK(WithSlot(n, j)) && NodeOK(WithoutSlot(n, j))
    ensures forall q: nat :: q < SLOTS ==> (TestBit(WithSlot(n, j).slots, q) <==> q == j || TestBit(n.slots, q))
    ensures forall q: nat :: q < SLOTS ==> (TestBit(WithoutSlot(n, j).slots, q) <==> q != j && TestBit(n.slots, q))
  {
    CountChanges(n, j);
    SameLength(n.slots, j);
    hide TestBit;
    hide SetBit;
    hide ClearBit;
    hide Bits;
    forall q: nat | q < SLOTS
      ensures TestBit(WithSlot(n, j).slots, q) <==> q == j || TestBit(n.slots, q)
      ensures TestBit(WithoutSlot(n, j).slots, q) <==> q != j && TestBit(n.slots, q)
    {
      SetBitTests(n.slots, j, q);
    }
  }

  /** Binding an unbound slot keeps the agreement. */
  lemma BindOK(nodes: map<Name, Node>, slots: seq<Option<Name>>, n: Name, j: nat)
    requires Agree(nodes, slots) && n in nodes && j < SLOTS && slots[j] == None
    ensures Agree(nodes[n := WithSlot(nodes[n], j)], slots[j := Some(n)])
  {
    hide NodeOK;
    hide TestBit;
    hide WithSlot;
    NodeLength(nodes[n]);
    NodeChanges(nodes[n], j);
    var nodes' := nodes[n := WithSlot(nodes[n], j)];
    var slots' := slots[j := Some(n)];
    forall m, q: nat | m in nodes' && q < SLOTS
      ensures |nodes'[m].slots| == SLOTS / 8 && (TestBit(nodes'[m].slots, q) <==> slots'[q] == Some(m))
    {
      NodeLength(nodes'[m]);
      NodeLength(nodes[m]);
      assert TestBit(nodes[m].slots, q) <==> slots[q] == Some(m);
    }
  }

  lemma NodeLength(n: Node)
    requires NodeOK(n)
    ensures |n.slots| == SLOTS / 8
  {
  }

  /** When a slot is bound its node's bit is set, so the assertion at cluster.c:3429 holds, and
      unbinding it keeps the agreement. */
  lemma UnbindOK(nodes: map<Name, Node>, slots: seq<Option<Name>>, j: nat)
    requires Agree(nodes, slots) && j < SLOTS && slots[j].Some?
    ensures slots[j].value in nodes && NodeOK(nodes[slots[j].value]) && TestBit(nodes[slots[j].value].slots, j)
    ensures Agree(nodes[slots[j].value := WithoutSlot(nodes[slots[j].value], j)], slots[j := None])
  {
    hide NodeOK;
    hide TestBit;
    hide WithoutSlot;
    var n := slots[j].value;
    NodeChanges(nodes[n], j);
    assert TestBit(nodes[n].slots, j) by { NodeLength(nodes[n]); }
    var nodes' := nodes[n := WithoutSlot(nodes[n], j)];
    var slots' := slots[j := None];
    forall m, q: nat | m in nodes' && q < SLOTS
      ensures |nodes'[m].slots| == SLOTS / 8 && (TestBit(nodes'[m].slots, q) <==> slots'[q] == Some(m))
    {
      NodeLength(nodes'[m]);
      NodeLength(nodes[m]);
      assert TestBit(nodes[m].slots, q) <==> slots[q] == Some(m);
    }
  }

  // ---- What the operations leave alone ----

  /** A node apart from its slots. */
  function Rest(n: Node): Node {
    n.(slots := [], numslots := 0)
  }

  ghost function Epochs(nodes: map<Name, Node>): map<Name, nat> {
    map n | n in nodes :: nodes[n].configEpoch
  }

  lemma SameEpochs(a: map<Name, Node>, b: map<Name, Node>)
    requires SameRest(a, b)
    ensures Epochs(a) == Epochs(b)
  {
    forall n | n in a ensures a[n].configEpoch == b[n].configEpoch {
      assert Rest(a[n]) == Rest(b[n]);
    }
  }

  /** The same nodes, apart from their slots. */
  ghost predicate SameRest(a: map<Name, Node>, b: map<Name, Node>) {
    a.Keys == b.Keys && forall n :: n in a ==> Rest(a[n]) == Rest(b[n])
  }

  // ---- Claims ----

  /** What a claim depends on: the known nodes' configEpochs and the two slot tables. */
  datatype View = View(epochs: map<Name, nat>, slots: seq<Option<Name>>, importing: seq<Option<Name>>)

  /** The part of a PING, PONG or UPDATE packet that claims slots. */
  datatype Claim = Claim(sender: Name, epoch: nat, slots: seq<bv8>)

  ghost predicate ViewOK(v: View) {
    && |v.slots| == SLOTS && |v.importing| == SLOTS
    && forall j :: 0 <= j < SLOTS && v.slots[j].Some? ==> v.slots[j].value in v.epochs
  }

  predicate ClaimOK(c: Claim) {
    |c.slots| == SLOTS / 8
  }

  ghost predicate Claims(c: Claim, j: nat)
    requires ClaimOK(c) && j < SLOTS
  {
    TestBit(c.slots, j)
  }

  /** The claim takes slot `j`: it is not the sender's already, not being imported, and unbound or
      bound to a node with a smaller configEpoch (cluster.c:1491-1504). */
  ghost predicate Takes(v: View, c: Claim, j: nat)
    requires ViewOK(v) && ClaimOK(c) && j < SLOTS
  {
    && Claims(c, j)
    && v.slots[j] != Some(c.sender)
    && v.importing[j] == None
    && (v.slots[j] == None || v.epochs[v.slots[j].value] < c.epoch)
  }

  /** The slot table after a claim. */
  ghost function Rebound(v: View, c: Claim): (r: seq<Option<Name>>)
    requires ViewOK(v) && ClaimOK(c)
    ensures |r| == SLOTS
    ensures forall j: nat :: j < SLOTS ==> r[j] == if Takes(v, c, j) then Some(c.sender) else v.slots[j]
  {
    seq(SLOTS, j requires 0 <= j < SLOTS && ViewOK(v) && ClaimOK(c) =>
      if Takes(v, c, j) then Some(c.sender) else v.slots[j])
  }
}
