/** How the rewrite writes a collection: one pass over the items, with a new command header every 64
    items (`rewriteListObject`, `rewriteSetObject`, `rewriteSortedSetObject`, `rewriteHashObject`). */
module AofEmit {
  import opened Bytes
  import opened AofCodec
  import opened AofReplay
  import opened AofRewrite

  lemma {:induction false} EncodeArgsConcat(a: Command, b: Command)
    ensures EncodeArgs(a + b) == EncodeArgs(a) + EncodeArgs(b)
  {
    hide EncodeArg;
    if a == [] {
      assert a + b == b;
    } else {
      assert (a + b)[1..] == a[1..] + b;
      EncodeArgsConcat(a[1..], b);
    }
  }

  function Least(a: nat, b: nat): nat { if a < b then a else b }

  /** Where the chunk that item `i` falls in ends. */
  function ChunkEnd(n: nat, i: nat, count: nat): nat
    requires count <= i <= n
  {
    Least(i - count + ITEMS_PER_CMD, n)
  }

  /** What is still to be written before item `i`, `count` items into a chunk. */
  function Pending(k: Kind, key: Bulk, items: seq<Item>, i: nat, count: nat): seq<Byte>
    requires count <= i <= |items| && count < ITEMS_PER_CMD
  {
    if count == 0 then EncodeAll(Chunks(k, key, items[i..]))
    else
      var end := ChunkEnd(|items|, i, count);
      EncodeArgs(Flat(items[i..end])) + EncodeAll(Chunks(k, key, items[end..]))
  }

  /** The start of a command of `n` items. */
  function CommandStart(k: Kind, key: Bulk, n: nat): seq<Byte> {
    Header(STAR, 2 + n * Width(k)) + EncodeArg(Name(k)) + EncodeArg(key)
  }

  lemma EncodeParts(c: Command)
    ensures Encode(c) == Header(STAR, |c|) + EncodeArgs(c)
  {
  }

  lemma ChunkEncodes(k: Kind, key: Bulk, items: seq<Item>)
    requires Sized(k, items)
    ensures Encode(Chunk(k, key, items)) == CommandStart(k, key, |items|) + EncodeArgs(Flat(items))
  {
    hide *;
    var c := Chunk(k, key, items);
    var names: Command := [Name(k), key];
    var h := Header(STAR, |c|);
    ChunkParts(k, key, items);
    StartParts(k, key, |items|);
    EncodeParts(c);
    EncodeArgsConcat(names, Flat(items));
    PairEncodes(Name(k), key);
    Assoc(h, EncodeArg(Name(k)), EncodeArg(key));
    Assoc(h, EncodeArg(Name(k)) + EncodeArg(key), EncodeArgs(Flat(items)));
  }

  lemma ChunkParts(k: Kind, key: Bulk, items: seq<Item>)
    requires Sized(k, items)
    ensures Chunk(k, key, items) == [Name(k), key] + Flat(items)
    ensures |Chunk(k, key, items)| == 2 + |items| * Width(k)
  {
    FlatSize(k, items);
    hide Name;
    hide Flat;
  }

  lemma StartParts(k: Kind, key: Bulk, n: nat)
    ensures CommandStart(k, key, n) == Header(STAR, 2 + n * Width(k)) + EncodeArg(Name(k)) + EncodeArg(key)
  {
    hide Name;
    hide EncodeArg;
    hide Header;
  }

  lemma ChunksFirst(k: Kind, key: Bulk, items: seq<Item>)
    requires Sized(k, items) && items != []
    ensures var n := Least(ITEMS_PER_CMD, |items|);
      EncodeAll(Chunks(k, key, items)) ==
      CommandStart(k, key, n) + EncodeArgs(Flat(items[..n])) + EncodeAll(Chunks(k, key, items[n..]))
  {
    var n := Least(ITEMS_PER_CMD, |items|);
    assert n == |items| ==> items[..n] == items;
    ChunkEncodes(k, key, items[..n]);
    var c := Chunk(k, key, items[..n]);
    var cs := Chunks(k, key, items);
    assert cs == [c] + Chunks(k, key, items[n..]);
    assert cs[1..] == Chunks(k, key, items[n..]);
    hide Encode;
    hide CommandStart;
    hide Chunk;
  }

  lemma Slices(items: seq<Item>, i: nat, end: nat)
    requires i <= end <= |items|
    ensures items[i..][..end - i] == items[i..end] && items[i..][end - i..] == items[end..]
  {
  }

  lemma PendingFresh(k: Kind, key: Bulk, items: seq<Item>, i: nat)
    requires i < |items|
    ensures Pending(k, key, items, i, 0) == EncodeAll(Chunks(k, key, items[i..]))
    ensures ChunkEnd(|items|, i, 0) - i == Least(ITEMS_PER_CMD, |items[i..]|)
  {
  }

  lemma EndWithin(k: Kind, items: seq<Item>, i: nat)
    requires Sized(k, items) && i < |items|
    ensures i < ChunkEnd(|items|, i, 0) <= |items| && Sized(k, items[i..])
  {
  }

  /** A header opens the chunk the item falls in. */
  lemma PendingStarts(k: Kind, key: Bulk, items: seq<Item>, i: nat)
    requires Sized(k, items) && i < |items|
    ensures var end := ChunkEnd(|items|, i, 0);
      && i < end <= |items|
      && Pending(k, key, items, i, 0) ==
         CommandStart(k, key, end - i) + (EncodeArgs(Flat(items[i..end])) + EncodeAll(Chunks(k, key, items[end..])))
  {
    var end := ChunkEnd(|items|, i, 0);
    EndWithin(k, items, i);
    hide *;
    PendingFresh(k, key, items, i);
    ChunksFirst(k, key, items[i..]);
    Slices(items, i, end);
    Assoc(CommandStart(k, key, end - i), EncodeArgs(Flat(items[i..end])), EncodeAll(Chunks(k, key, items[end..])));
  }

  lemma ItemWritten(items: seq<Item>, i: nat, end: nat)
    requires i < end <= |items|
    ensures EncodeArgs(Flat(items[i..end])) == EncodeArgs(items[i]) + EncodeArgs(Flat(items[i + 1..end]))
  {
    assert items[i..end][1..] == items[i + 1..end];
    EncodeArgsConcat(items[i], Flat(items[i + 1..end]));
  }

  lemma NoItems()
    ensures EncodeArgs(Flat([])) == []
  {
  }

  lemma ChunkGoesOn(k: Kind, key: Bulk, items: seq<Item>, i: nat, count: nat)
    requires count <= i < |items| && count + 1 < ITEMS_PER_CMD
    ensures var end := ChunkEnd(|items|, i, count);
      && i < end <= |items|
      && Pending(k, key, items, i + 1, count + 1) ==
         EncodeArgs(Flat(items[i + 1..end])) + EncodeAll(Chunks(k, key, items[end..]))
  {
    hide EncodeArgs;
    hide Chunks;
    hide EncodeAll;
    hide Flat;
  }

  lemma ChunkDone(k: Kind, key: Bulk, items: seq<Item>, i: nat, count: nat)
    requires count <= i < |items| && count + 1 == ITEMS_PER_CMD
    ensures ChunkEnd(|items|, i, count) == i + 1
    ensures Pending(k, key, items, i + 1, 0) ==
            EncodeArgs(Flat(items[i + 1..i + 1])) + EncodeAll(Chunks(k, key, items[i + 1..]))
  {
    NoItems();
    assert items[i + 1..i + 1] == [];
    hide EncodeArgs;
    hide Chunks;
    hide EncodeAll;
    hide Flat;
  }

  /** After an item, the rest of its chunk is pending, or the next chunk if it was the last. */
  lemma PendingGoesOn(k: Kind, key: Bulk, items: seq<Item>, i: nat, count: nat)
    requires Sized(k, items) && count <= i < |items| && count < ITEMS_PER_CMD
    ensures var end := ChunkEnd(|items|, i, count);
            var next := if count + 1 == ITEMS_PER_CMD then 0 else count + 1;
      && i < end <= |items|
      && EncodeArgs(Flat(items[i..end])) + EncodeAll(Chunks(k, key, items[end..])) ==
         EncodeArgs(items[i]) + Pending(k, key, items, i + 1, next)
  {
    hide EncodeArgs;
    hide Chunks;
    hide EncodeAll;
    hide Flat;
    hide Pending;
    var end := ChunkEnd(|items|, i, count);
    if count + 1 == ITEMS_PER_CMD {
      ChunkDone(k, key, items, i, count);
    } else {
      ChunkGoesOn(k, key, items, i, count);
    }
    ItemWritten(items, i, end);
    Assoc(EncodeArgs(items[i]), EncodeArgs(Flat(items[i + 1..end])), EncodeAll(Chunks(k, key, items[end..])));
  }

  /** The bytes of a collection. */
  method RewriteCollection(out: seq<Byte>, k: Kind, key: Bulk, items: seq<Item>) returns (r: seq<Byte>)
    requires Sized(k, items)
    ensures r == out + EncodeAll(Chunks(k, key, items))
  {
    ghost var total := out + EncodeAll(Chunks(k, key, items));
    var count, left, i := 0, |items|, 0;
    assert items[0..] == items;
    hide Chunks;
    hide EncodeAll;
    hide EncodeArgs;
    hide EncodeArg;
    hide Header;
    hide Pending;
    r := out;
    assert r + Pending(k, key, items, 0, 0) == total by { PendingAll(k, key, items); }
    while i < |items|
      invariant count <= i <= |items| && count < ITEMS_PER_CMD && left == |items| - i
      invariant r + Pending(k, key, items, i, count) == total
    {
      r := WriteItem(r, k, key, items, i, count, left, total);
      count := if count + 1 == ITEMS_PER_CMD then 0 else count + 1;
      left := left - 1;
      i := i + 1;
    }
    NothingPending(k, key, items, count);
    assert r + [] == r;
  }

  lemma PendingAll(k: Kind, key: Bulk, items: seq<Item>)
    ensures Pending(k, key, items, 0, 0) == EncodeAll(Chunks(k, key, items))
  {
    assert items[0..] == items;
  }

  lemma NothingPending(k: Kind, key: Bulk, items: seq<Item>, count: nat)
    requires count <= |items| && count < ITEMS_PER_CMD
    ensures Pending(k, key, items, |items|, count) == []
  {
    assert items[|items|..] == [];
  }

  /** One item, after a header if it opens a command. */
  method WriteItem(out: seq<Byte>, k: Kind, key: Bulk, items: seq<Item>, i: nat, count: nat, left: nat,
                   ghost total: seq<Byte>) returns (r: seq<Byte>)
    requires Sized(k, items) && count <= i < |items| && count < ITEMS_PER_CMD && left == |items| - i
    requires out + Pending(k, key, items, i, count) == total
    ensures r + Pending(k, key, items, i + 1, if count + 1 == ITEMS_PER_CMD then 0 else count + 1) == total
  {
    ghost var end := ChunkEnd(|items|, i, count);
    ghost var tail := EncodeArgs(Flat(items[i..end])) + EncodeAll(Chunks(k, key, items[end..]));
    PendingGoesOn(k, key, items, i, count);
    r := out;
    if count == 0 {
      PendingStarts(k, key, items, i);
      var cmdItems := if left > ITEMS_PER_CMD then ITEMS_PER_CMD else left;
      hide *;
      assert cmdItems == end - i by { StartCount(|items|, i); }
      r := WriteStart(r, k, key, cmdItems);
      Assoc(out, CommandStart(k, key, cmdItems), tail);
    }
    assert r + tail == total by { PendingInside(k, key, items, i, count); }
    hide *;
    ghost var before := r;
    r := WriteArgs(r, items[i]);
    Assoc(before, EncodeArgs(items[i]), Pending(k, key, items, i + 1, if count + 1 == ITEMS_PER_CMD then 0 else count + 1));
  }

  lemma PendingInside(k: Kind, key: Bulk, items: seq<Item>, i: nat, count: nat)
    requires count <= i < |items| && count < ITEMS_PER_CMD
    ensures var end := ChunkEnd(|items|, i, count);
      count == 0 ||
      Pending(k, key, items, i, count) == EncodeArgs(Flat(items[i..end])) + EncodeAll(Chunks(k, key, items[end..]))
  {
  }

  lemma StartCount(n: nat, i: nat)
    requires i < n
    ensures ChunkEnd(n, i, 0) - i == if n - i > ITEMS_PER_CMD then ITEMS_PER_CMD else n - i
  {
  }

  method WriteStart(out: seq<Byte>, k: Kind, key: Bulk, n: nat) returns (r: seq<Byte>)
    ensures r == out + CommandStart(k, key, n)
  {
    r := out + Header(STAR, 2 + n * Width(k));
    r := r + EncodeArg(Name(k));
    r := r + EncodeArg(key);
    hide EncodeArg;
    hide Header;
  }

  method WriteArgs(out: seq<Byte>, args: Command) returns (r: seq<Byte>)
    ensures r == out + EncodeArgs(args)
  {
    hide EncodeArg;
    r := out;
    var j := 0;
    while j < |args|
      invariant j <= |args| && r + EncodeArgs(args[j..]) == out + EncodeArgs(args)
    {
      assert args[j..][1..] == args[j + 1..];
      Assoc(r, EncodeArg(args[j]), EncodeArgs(args[j + 1..]));
      r := r + EncodeArg(args[j]);
      j := j + 1;
    }
    assert EncodeArgs(args[j..]) == [];
  }
}
