/** The pipes between the server and its rewrite child: what the child collects, with what is left in
    the parent's blocks, is exactly what was fed since the fork, however the two processes interleave. */
module AofHandshake {
  import opened Bytes

  const BLOCK_SIZE := 10 * 1024 * 1024

  /** `aofrwblock`: its unsent bytes, and the room at its end. */
  datatype Block = Block(data: seq<Byte>, free: nat)

  ghost predicate BlockOK(b: Block) { |b.data| + b.free <= BLOCK_SIZE }

  function Joined(bs: seq<Block>): seq<Byte> {
    if bs == [] then [] else Joined(bs[..|bs| - 1]) + bs[|bs| - 1].data
  }

  /** `aofRewriteBufferAppend` (aof.c:133-178). */
  function Append(bs: seq<Block>, s: seq<Byte>): seq<Block>
    decreases |s|, if bs != [] && bs[|bs| - 1].free > 0 then 0 else 1
  {
    if s == [] then bs
    else if bs != [] && bs[|bs| - 1].free > 0 then
      var b := bs[|bs| - 1];
      var n := if b.free < |s| then b.free else |s|;
      Append(bs[|bs| - 1 := Block(b.data + s[..n], b.free - n)], s[n..])
    else Append(bs + [Block([], BLOCK_SIZE)], s)
  }

  /** One turn of the loop of `aofChildWriteDiffData` (aof.c:111-129) when `write` takes `n` bytes; 0
      stands for any failure. */
  function Send(bs: seq<Block>, n: nat): (seq<Block>, seq<Byte>)
    requires bs != [] && n <= |bs[0].data|
  {
    var b := bs[0];
    if |b.data| == n then (bs[1..], b.data)
    else (bs[0 := Block(b.data[n..], b.free)], b.data[..n])
  }

  lemma JoinedLast(bs: seq<Block>)
    ensures bs == [] ==> Joined(bs) == []
    ensures bs != [] ==> Joined(bs) == Joined(bs[..|bs| - 1]) + bs[|bs| - 1].data
  {
  }

  lemma {:induction false} JoinedFirst(bs: seq<Block>)
    requires bs != []
    ensures Joined(bs) == bs[0].data + Joined(bs[1..])
    decreases |bs|
  {
    hide Joined;
    JoinedLast(bs);
    JoinedLast(bs[1..]);
    var t := bs[..|bs| - 1];
    if t == [] {
      JoinedLast(t);
    } else {
      JoinedFirst(t);
      assert t[1..] == bs[1..][..|bs[1..]| - 1];
    }
  }

  /** Appending to the blocks appends to what they hold, and no block overflows. */
  lemma {:induction false} AppendJoins(bs: seq<Block>, s: seq<Byte>)
    requires forall i :: 0 <= i < |bs| ==> BlockOK(bs[i])
    ensures Joined(Append(bs, s)) == Joined(bs) + s
    ensures forall i :: 0 <= i < |Append(bs, s)| ==> BlockOK(Append(bs, s)[i])
    decreases |s|, if bs != [] && bs[|bs| - 1].free > 0 then 0 else 1
  {
    hide Joined;
    hide Append;
    if s == [] {
      AppendNothing(bs);
      assert Joined(bs) + s == Joined(bs);
    } else if bs != [] && bs[|bs| - 1].free > 0 {
      var b := bs[|bs| - 1];
      var n := if b.free < |s| then b.free else |s|;
      var next := bs[|bs| - 1 := Block(b.data + s[..n], b.free - n)];
      GrowLast(bs, s[..n], b.free - n);
      AppendGrows(bs, s);
      AppendJoins(next, s[n..]);
      SplitBack(Joined(bs), s, n);
    } else {
      NewLast(bs);
      AppendOpens(bs, s);
      AppendJoins(bs + [Block([], BLOCK_SIZE)], s);
    }
  }

  /** A block is begun only when the one before it is full. */
  ghost predicate Packed(bs: seq<Block>) { forall i :: 0 <= i < |bs| - 1 ==> bs[i].free == 0 }

  /** Appending keeps it so. */
  lemma {:induction false} AppendPacks(bs: seq<Block>, s: seq<Byte>)
    requires Packed(bs)
    ensures Packed(Append(bs, s))
    decreases |s|, if bs != [] && bs[|bs| - 1].free > 0 then 0 else 1
  {
    hide Append;
    if s == [] {
      AppendNothing(bs);
    } else if bs != [] && bs[|bs| - 1].free > 0 {
      var b := bs[|bs| - 1];
      var n := if b.free < |s| then b.free else |s|;
      AppendGrows(bs, s);
      AppendPacks(bs[|bs| - 1 := Block(b.data + s[..n], b.free - n)], s[n..]);
    } else {
      AppendOpens(bs, s);
      AppendPacks(bs + [Block([], BLOCK_SIZE)], s);
    }
  }

  lemma AppendNothing(bs: seq<Block>)
    ensures Append(bs, []) == bs
  {
  }

  lemma AppendOpens(bs: seq<Block>, s: seq<Byte>)
    requires s != [] && (bs == [] || bs[|bs| - 1].free == 0)
    ensures Append(bs, s) == Append(bs + [Block([], BLOCK_SIZE)], s)
  {
  }

  lemma SplitBack(a: seq<Byte>, s: seq<Byte>, n: nat)
    requires n <= |s|
    ensures (a + s[..n]) + s[n..] == a + s
  {
    assert s[..n] + s[n..] == s;
  }

  lemma GrowLast(bs: seq<Block>, s: seq<Byte>, free: nat)
    requires bs != []
    ensures Joined(bs[|bs| - 1 := Block(bs[|bs| - 1].data + s, free)]) == Joined(bs) + s
  {
    var next := bs[|bs| - 1 := Block(bs[|bs| - 1].data + s, free)];
    assert next[..|bs| - 1] == bs[..|bs| - 1];
  }

  lemma NewLast(bs: seq<Block>)
    ensures Joined(bs + [Block([], BLOCK_SIZE)]) == Joined(bs)
  {
    assert (bs + [Block([], BLOCK_SIZE)])[..|bs|] == bs;
  }

  lemma AppendGrows(bs: seq<Block>, s: seq<Byte>)
    requires s != [] && bs != [] && bs[|bs| - 1].free > 0
    ensures var b := bs[|bs| - 1];
            var n := if b.free < |s| then b.free else |s|;
      Append(bs, s) == Append(bs[|bs| - 1 := Block(b.data + s[..n], b.free - n)], s[n..])
  {
  }

  /** What is sent is the front of what the blocks hold. */
  lemma SendJoins(bs: seq<Block>, n: nat)
    requires bs != [] && n <= |bs[0].data| && forall i :: 0 <= i < |bs| ==> BlockOK(bs[i])
    ensures var (left, sent) := Send(bs, n);
      && sent + Joined(left) == Joined(bs)
      && forall i :: 0 <= i < |left| ==> BlockOK(left[i])
  {
    JoinedFirst(bs);
    var (left, sent) := Send(bs, n);
    if n < |bs[0].data| {
      JoinedFirst(left);
      hide Joined;
      assert left[1..] == bs[1..];
      SplitFront(bs[0].data, n, Joined(bs[1..]));
    }
  }

  lemma SplitFront(s: seq<Byte>, n: nat, t: seq<Byte>)
    requires n <= |s|
    ensures s[..n] + (s[n..] + t) == s + t
  {
    assert s[..n] + s[n..] == s;
  }

  // ---- The two processes ----

  /** The child works, has asked the parent to stop, has its answer, or has made its final read. */
  datatype Phase = Working | Asked | Answered | Finished

  /** `pipe` is the data pipe, `asks` and `answers` the '!' bytes on the other two; `fed` is a history of
      what was fed since the fork. */
  datatype Pair = Pair(
    blocks: seq<Block>, stopSending: bool, pipe: seq<Byte>, asks: nat, answers: nat,
    phase: Phase, diff: seq<Byte>, fed: seq<Byte>)

  function Forked(): Pair { Pair([], false, [], 0, 0, Working, [], []) }

  datatype Event =
    | Feed(s: seq<Byte>)          // aofRewriteBufferAppend
    | Write(n: nat)               // aofChildWriteDiffData, one write
    | Read(n: nat)                // aofReadDiffFromParent, one read, while working
    | Ask                         // the child writes '!'
    | Stop(answered: bool)        // aofChildPipeReadable; the answer may fail to be sent
    | HearAnswer                  // syncRead of the '!'
    | FinalRead                   // the last aofReadDiffFromParent reads until the pipe is empty

  ghost predicate Allowed(p: Pair, e: Event) {
    match e
    case Feed(_) => true
    case Write(n) => p.blocks != [] && n <= |p.blocks[0].data|
    case Read(n) => p.phase == Working && n <= |p.pipe|
    case Ask => p.phase == Working
    case Stop(_) => p.asks > 0
    case HearAnswer => p.phase == Asked && p.answers > 0
    case FinalRead => p.phase == Answered
  }

  ghost function Do(p: Pair, e: Event): Pair
    requires Allowed(p, e)
  {
    match e
    case Feed(s) => p.(blocks := Append(p.blocks, s), fed := p.fed + s)
    case Write(n) =>
      if p.stopSending then p
      else p.(blocks := Send(p.blocks, n).0, pipe := p.pipe + Send(p.blocks, n).1)
    case Read(n) => p.(pipe := p.pipe[n..], diff := p.diff + p.pipe[..n])
    case Ask => p.(asks := p.asks + 1, phase := Asked)
    case Stop(answered) =>
      p.(asks := p.asks - 1, stopSending := true, answers := if answered then p.answers + 1 else p.answers)
    case HearAnswer => p.(answers := p.answers - 1, phase := Answered)
    case FinalRead => p.(pipe := [], diff := p.diff + p.pipe, phase := Finished)
  }

  /** Nothing is lost or duplicated on the way, and answers only come after the parent stopped. */
  ghost predicate Inv(p: Pair) {
    && (forall i :: 0 <= i < |p.blocks| ==> BlockOK(p.blocks[i]))
    && p.diff + p.pipe + Joined(p.blocks) == p.fed
    && (p.answers > 0 || p.phase == Answered || p.phase == Finished ==> p.stopSending)
    && (p.phase == Finished ==> p.pipe == [])
  }

  lemma Shift(a: seq<Byte>, b: seq<Byte>, n: nat, c: seq<Byte>)
    requires n <= |b|
    ensures (a + b[..n]) + b[n..] + c == a + b + c
  {
    assert b[..n] + b[n..] == b;
  }

  lemma StepInv(p: Pair, e: Event)
    requires Inv(p) && Allowed(p, e)
    ensures Inv(Do(p, e))
  {
    hide Joined;
    hide Append;
    hide BlockOK;
    var q := Do(p, e);
    match e
    case Feed(s) =>
      AppendJoins(p.blocks, s);
      Assoc(p.diff + p.pipe, Joined(p.blocks), s);
    case Write(n) =>
      if !p.stopSending {
        SendJoins(p.blocks, n);
        var (left, sent) := Send(p.blocks, n);
        hide Send;
        Assoc(p.diff, p.pipe, sent);
        Assoc(p.diff + p.pipe, sent, Joined(left));
      }
    case Read(n) => Shift(p.diff, p.pipe, n, Joined(p.blocks));
    case FinalRead =>
      assert p.diff + p.pipe + [] == p.diff + p.pipe;
    case _ =>
  }

  ghost predicate Run(p: Pair, es: seq<Event>, q: Pair)
    decreases |es|
  {
    if es == [] then q == p else Allowed(p, es[0]) && Run(Do(p, es[0]), es[1..], q)
  }

  lemma {:induction false} RunInv(p: Pair, es: seq<Event>, q: Pair)
    requires Inv(p) && Run(p, es, q)
    ensures Inv(q)
    decreases |es|
  {
    if es != [] {
      StepInv(p, es[0]);
      hide Inv;
      hide Do;
      RunInv(Do(p, es[0]), es[1..], q);
    }
  }

  /** At every moment, what the child collected, what is in the pipe and what is in the blocks are, in
      order, exactly the bytes fed since the fork. */
  lemma NothingLost(es: seq<Event>, q: Pair)
    requires Run(Forked(), es, q)
    ensures q.diff + q.pipe + Joined(q.blocks) == q.fed
  {
    RunInv(Forked(), es, q);
  }

  /** Once the child has made its final read, its diff and the parent's blocks are together what was
      fed, also while the parent goes on feeding; so the new file is the child's snapshot followed by
      every byte fed since the fork. */
  lemma HandOver(es: seq<Event>, q: Pair, snapshot: seq<Byte>)
    requires Run(Forked(), es, q) && q.phase == Finished
    ensures q.diff + Joined(q.blocks) == q.fed
    ensures (snapshot + q.diff) + Joined(q.blocks) == snapshot + q.fed
  {
    RunInv(Forked(), es, q);
    assert q.diff + [] == q.diff;
  }

  // ---- The parent, updated in place ----

  class Parent {
    var blocks: seq<Block>
    var stopSending: bool

    ghost predicate Valid()
      reads this
    {
      forall i :: 0 <= i < |blocks| ==> BlockOK(blocks[i])
    }

    /** `aofRewriteBufferReset` and `aofCreatePipes`. */
    constructor ()
      ensures Valid() && blocks == [] && !stopSending
    {
      blocks, stopSending := [], false;
    }

    /** `aofRewriteBufferAppend` (aof.c:133-178). */
    method RewriteBufferAppend(s: seq<Byte>)
      requires Valid()
      modifies this`blocks
      ensures Valid() && blocks == Append(old(blocks), s)
      ensures Joined(blocks) == Joined(old(blocks)) + s
    {
      AppendJoins(blocks, s);
      hide Joined;
      var rest := s;
      while rest != []
        invariant Append(blocks, rest) == Append(old(blocks), s)
        decreases |rest|, if blocks != [] && blocks[|blocks| - 1].free > 0 then 0 else 1
      {
        if blocks != [] && blocks[|blocks| - 1].free > 0 {
          var b := blocks[|blocks| - 1];
          var thislen := if b.free < |rest| then b.free else |rest|;
          blocks := blocks[|blocks| - 1 := Block(b.data + rest[..thislen], b.free - thislen)];
          rest := rest[thislen..];
        } else {
          blocks := blocks + [Block([], BLOCK_SIZE)];
        }
      }
    }

    /** `aofChildWriteDiffData` (aof.c:102-130): `takes` says how much each `write` takes, a failure
        ending the call. Returns the bytes put into the pipe. */
    method ChildWriteDiffData(takes: seq<nat>) returns (sent: seq<Byte>)
      requires Valid()
      modifies this`blocks
      ensures Valid() && sent + Joined(blocks) == Joined(old(blocks))
      ensures stopSending ==> sent == [] && blocks == old(blocks)
      ensures !stopSending && |takes| >= |old(blocks)| && TakesAll(old(blocks), takes) ==> blocks == []
      ensures !stopSending && old(blocks) != [] && takes != [] && takes[0] > 0 && old(blocks)[0].data != [] ==> sent != []
    {
      sent := [];
      var i := 0;
      hide Joined;
      hide BlockOK;
      assert [] + Joined(blocks) == Joined(blocks);
      while i < |takes|
        invariant i <= |takes| && Valid() && sent + Joined(blocks) == Joined(old(blocks))
        invariant stopSending ==> sent == [] && blocks == old(blocks)
        invariant i == 0 ==> blocks == old(blocks)
        invariant i > 0 && takes[0] > 0 && old(blocks) != [] && old(blocks)[0].data != [] ==> sent != []
        invariant TakesAll(old(blocks), takes) ==> i <= |old(blocks)| && blocks == old(blocks)[i..]
      {
        if stopSending || blocks == [] {
          return;
        }
        var n := if takes[i] < |blocks[0].data| then takes[i] else |blocks[0].data|;
        if |blocks[0].data| > 0 && n == 0 {
          return;
        }
        SendJoins(blocks, n);
        var (left, piece) := Send(blocks, n);
        hide Send;
        Assoc(sent, piece, Joined(left));
        sent := sent + piece;
        blocks := left;
        i := i + 1;
      }
    }

    /** `aofRewriteBufferWrite` (aof.c:183-203): `takes(i)` is what the write of block `i` returns, -1 for an
        error. Everything is written and counted if no write is short; otherwise -1 is returned, after the
        blocks before the short one and a part of it. */
    method RewriteBufferWrite(takes: nat -> int) returns (count: int, written: seq<Byte>)
      requires Valid() && forall i: nat :: i < |blocks| ==> -1 <= takes(i) <= |blocks[i].data|
      ensures WrittenBelow(blocks, takes, |blocks|) ==> count == |Joined(blocks)| && written == Joined(blocks)
      ensures !WrittenBelow(blocks, takes, |blocks|) ==>
                count == -1 && |written| < |Joined(blocks)| && written == Joined(blocks)[..|written|]
    {
      count, written := 0, [];
      assert blocks[..0] == [];
      for i := 0 to |blocks|
        invariant written == Joined(blocks[..i]) && count == |written| && WrittenBelow(blocks, takes, i)
      {
        var data := blocks[i].data;
        JoinedNext(blocks, i);
        if |data| > 0 {
          var nwritten := takes(i);
          if nwritten != |data| {
            var some := if nwritten > 0 then nwritten else 0;
            JoinedPart(blocks, i, some);
            return -1, written + data[..some];
          }
          written := written + data;
          count := count + nwritten;
        }
        hide Joined;
      }
      assert blocks[..|blocks|] == blocks;
    }
  }

  /** No write is short. */
  ghost predicate TakesAll(bs: seq<Block>, takes: seq<nat>) {
    forall i :: 0 <= i < |bs| && i < |takes| ==> takes[i] >= |bs[i].data|
  }

  /** No write of the blocks below `k` is short. */
  ghost predicate WrittenBelow(bs: seq<Block>, takes: nat -> int, k: nat)
    requires k <= |bs|
  {
    forall i: nat :: i < k && |bs[i].data| > 0 ==> takes(i) == |bs[i].data|
  }

  lemma JoinedNext(bs: seq<Block>, i: nat)
    requires i < |bs|
    ensures Joined(bs[..i + 1]) == Joined(bs[..i]) + bs[i].data
  {
    assert bs[..i + 1][..i] == bs[..i];
  }

  /** The blocks before one, and a part of it that is not the whole. */
  lemma JoinedPart(bs: seq<Block>, i: nat, n: nat)
    requires i < |bs| && n < |bs[i].data|
    ensures var part := Joined(bs[..i]) + bs[i].data[..n];
      |part| < |Joined(bs)| && part == Joined(bs)[..|part|]
  {
    JoinedNext(bs, i);
    JoinedPrefix(bs, i + 1);
    hide Joined;
    var part := Joined(bs[..i]) + bs[i].data[..n];
    assert part == (Joined(bs[..i]) + bs[i].data)[..|part|];
  }

  lemma {:induction false} JoinedPrefix(bs: seq<Block>, k: nat)
    requires k <= |bs|
    ensures |Joined(bs[..k])| <= |Joined(bs)| && Joined(bs)[..|Joined(bs[..k])|] == Joined(bs[..k])
    decreases |bs|
  {
    if k == |bs| {
      assert bs[..k] == bs;
    } else {
      var t := bs[..|bs| - 1];
      JoinedPrefix(t, k);
      assert t[..k] == bs[..k];
    }
  }
}
