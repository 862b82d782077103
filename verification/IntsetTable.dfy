/** The intset of intset.c, updated in place. */
module IntsetTable {
  import opened IntsetBytes
  import opened IntsetMoves

  /** More elements than this are outside what the 32-bit byte counts can hold. */
  const MAX_LENGTH: nat := 0x1000_0000

  lemma SizeFits(len: nat, w: nat)
    requires len <= MAX_LENGTH && Width(w)
    ensures (len * w) % 0x1_0000_0000 == At(len, w)
  {
  }

  lemma GrownPrefix(a: seq<Byte>, b: seq<Byte>, m: nat)
    requires m <= |a| && m <= |b| && b[..m] == a[..m]
    ensures m == |a| ==> Grown(a, b)
    ensures m == |b| ==> Grown(b, a)
  {
    assert a[..|a|] == a && b[..|b|] == b;
  }

  /** The value can only be between `min` and `max`. */
  ghost predicate Narrowed(c: seq<int>, value: int, min: int, max: int) {
    && 0 <= min <= max + 1 <= |c|
    && (forall i :: 0 <= i < min ==> c[i] < value)
    && (forall i :: max < i < |c| ==> value < c[i])
  }

  lemma Probe(c: seq<int>, value: int, min: int, max: int, mid: int)
    requires Sorted(c) && Narrowed(c, value, min, max) && min <= max && mid == (min + max) / 2
    ensures min <= mid <= max && 0 <= mid < |c|
    ensures value > c[mid] ==> Narrowed(c, value, mid + 1, max)
    ensures value < c[mid] ==> Narrowed(c, value, min, mid - 1)
  {
  }

  lemma AllNarrowed(c: seq<int>, value: int)
    ensures Narrowed(c, value, 0, |c| - 1)
  {
  }

  /** Nothing is left to look at. */
  lemma NarrowedOut(c: seq<int>, value: int, min: int, max: int)
    requires Narrowed(c, value, min, max) && max < min
    ensures min >= 0 && Place(c, value, min) && value !in SetOf(c)
  {
  }

  lemma Beyond(c: seq<int>, value: int)
    requires Sorted(c) && c != []
    ensures value > c[|c| - 1] ==> Place(c, value, |c|) && value !in SetOf(c)
    ensures value < c[0] ==> Place(c, value, 0) && value !in SetOf(c)
  {
  }

  lemma Here(c: seq<int>, pos: nat)
    requires pos < |c|
    ensures c[pos] in SetOf(c)
  {
  }

  class Intset {
    var encoding: nat
    var length: nat
    var contents: array<Byte>

    ghost predicate Shaped()
      reads this
    {
      Width(encoding) && length <= MAX_LENGTH && contents.Length == At(length, encoding)
    }

    ghost function Contents(): seq<int>
      requires Shaped()
      reads this, contents
    {
      Elements(contents[..], length, encoding)
    }

    ghost predicate Valid()
      reads this, contents
    {
      Shaped() && Sorted(Contents())
    }

    /** The set the array stands for. */
    ghost function Members(): set<int>
      requires Shaped()
      reads this, contents
    {
      SetOf(Contents())
    }

    lemma Parts()
      requires Valid()
      ensures Shaped() && Width(encoding) && length <= MAX_LENGTH && contents.Length == At(length, encoding)
      ensures Contents() == Elements(contents[..], length, encoding) && |Contents()| == length
      ensures Sorted(Contents()) && Members() == SetOf(Contents())
    {
    }

    /** `intsetNew`. */
    constructor ()
      ensures Valid() && Members() == {} && fresh(contents)
    {
      encoding := 2;
      length := 0;
      contents := new Byte[0];
      new;
      assert contents[..] == [];
    }

    /** `intsetResize`: the bytes there is room for stay. */
    method Resize(len: nat)
      requires Width(encoding) && len <= MAX_LENGTH
      modifies this`contents
      ensures fresh(contents) && contents.Length == At(len, encoding)
      ensures var m := if contents.Length < old(contents.Length) then contents.Length else old(contents.Length);
        contents[..m] == old(contents[..m])
    {
      SizeFits(len, encoding);
      var size := (len * encoding) % 0x1_0000_0000;
      var a := new Byte[size];
      var m := if size < contents.Length then size else contents.Length;
      forall k | 0 <= k < m {
        a[k] := contents[k];
      }
      contents := a;
    }

    /** `_intsetGetEncoded`. */
    method Read(pos: nat, enc: nat) returns (v: int)
      requires Inside(contents[..], pos, enc)
      ensures v == Get(contents[..], pos, enc)
    {
      var o := At(pos, enc);
      assert contents[o..o + enc] == contents[..][o..o + enc];
      v := Decode(contents[o..o + enc]);
    }

    /** `_intsetSet`. */
    method Write(pos: nat, v: int)
      requires Inside(contents[..], pos, encoding) && Fits(v, encoding)
      modifies contents
      ensures contents[..] == Put(old(contents[..]), pos, encoding, v)
    {
      var o, b := At(pos, encoding), Encode(v, encoding);
      forall k | 0 <= k < encoding {
        contents[o + k] := b[k];
      }
      ghost var s := old(contents[..]);
      assert contents[..] == s[..o] + b + s[o + encoding..];
    }

    /** `intsetMoveTail` (intset.c:186-205): `memmove` of the elements from `from` on. */
    method MoveTail(from: nat, to: nat)
      requires Width(encoding) && from <= length && length <= MAX_LENGTH
      requires At(from + (length - from), encoding) <= contents.Length
      requires At(to + (length - from), encoding) <= contents.Length
      modifies contents
      ensures contents[..] == Tail(old(contents[..]), encoding, from, to, length - from)
    {
      var count := length - from;
      Distribute(from, count, encoding);
      Distribute(to, count, encoding);
      SizeFits(count, encoding);
      var src, dst, bytes := At(from, encoding), At(to, encoding), (count * encoding) % 0x1_0000_0000;
      assert bytes == At(count, encoding);
      hide At;
      CopyBytes(dst, src, bytes);
    }

    /** `memmove` inside the buffer. */
    method CopyBytes(dst: nat, src: nat, n: nat)
      requires src + n <= contents.Length && dst + n <= contents.Length
      modifies contents
      ensures contents[..] == Moved(old(contents[..]), dst, src, n)
    {
      ghost var s := contents[..];
      forall k | 0 <= k < n {
        contents[dst + k] := contents[src + k];
      }
      assert contents[..] == s[..dst] + s[src..src + n] + s[dst + n..];
    }

    /** `_intsetGet`. */
    method Element(pos: nat) returns (v: int)
      requires Shaped() && pos < length
      ensures v == Contents()[pos]
    {
      ElementAt(contents[..], length, encoding, pos);
      hide Get;
      hide At;
      v := Read(pos, encoding);
    }

    /** `intsetSearch` (intset.c:119-158): where the value is, or where it belongs. */
    method Search(value: int) returns (found: bool, pos: nat)
      requires Valid()
      ensures found <==> value in Members()
      ensures found ==> pos < length && Contents()[pos] == value
      ensures !found ==> Place(Contents(), value, pos)
    {
      hide *;
      Parts();
      ghost var c := Contents();
      AllNarrowed(c, value);
      if length == 0 {
        NarrowedOut(c, value, 0, -1);
        return false, 0;
      }
      var last := Element(length - 1);
      var first := Element(0);
      Beyond(c, value);
      if value > last {
        return false, length;
      } else if value < first {
        return false, 0;
      }
      var min: int, max: int, mid: int, cur := 0, length - 1, -1, -1;
      while max >= min
        invariant Narrowed(c, value, min, max) && (mid < 0 ==> min <= max) && (mid >= 0 ==> cur != value)
        decreases max - min
      {
        mid := (min + max) / 2;
        Probe(c, value, min, max, mid);
        cur := Element(mid);
        if value > cur {
          min := mid + 1;
        } else if value < cur {
          max := mid - 1;
        } else {
          break;
        }
      }
      if value == cur {
        Here(c, mid);
        return true, mid;
      } else {
        NarrowedOut(c, value, min, max);
        return false, min;
      }
    }

    /** `intsetUpgradeAndAdd` (intset.c:161-184). */
    method UpgradeAndAdd(value: int)
      requires Valid() && Int64(value) && ValueEncoding(value) > encoding && length < MAX_LENGTH
      modifies this, contents
      ensures Valid() && fresh(contents) && encoding == ValueEncoding(value) && length == old(length) + 1
      ensures value !in old(Members()) && Members() == old(Members()) + {value}
    {
      ghost var c := Contents();
      var prepend := if value < 0 then 1 else 0;
      AllBeyond(c, contents[..], length, encoding, value);
      ValueEncodingIs(value, ValueEncoding(value));
      hide *;
      Widen(ValueEncoding(value), prepend, c);
      WideningEnds(c, contents[..], old(encoding), encoding, prepend, value);
      WideningShape(c, contents[..], 0, old(encoding), encoding, prepend);
      if prepend == 1 {
        Write(0, value);
      } else {
        Write(length, value);
      }
      length := length + 1;
      Inserted(c, value, if prepend == 1 then 0 else |c|);
      Ends(c, value, prepend);
      ValidBy(if prepend == 1 then [value] + c else c + [value]);
    }

    /** The new width, the room, and the loop from the back (intset.c:167-175). */
    method Widen(newenc: nat, prepend: nat, ghost c: seq<int>)
      requires Shaped() && c == Contents() && Width(newenc) && encoding <= newenc && length < MAX_LENGTH && prepend <= 1
      modifies this`encoding, this`contents
      ensures fresh(contents) && encoding == newenc
      ensures Widening(c, contents[..], 0, old(encoding), newenc, prepend)
    {
      ghost var s := contents[..];
      var curenc := encoding;
      var len: nat := length;
      hide Elements;
      encoding := newenc;
      Grow(curenc);
      WideningStarts(s, contents[..], length, curenc, newenc, prepend);
      hide *;
      while len > 0
        invariant encoding == newenc && fresh(contents) && Widening(c, contents[..], len, curenc, newenc, prepend)
      {
        len := len - 1;
        WidenOne(len, curenc, prepend, c);
      }
    }

    /** The last element that is not moved yet. */
    method WidenOne(len: nat, curenc: nat, prepend: nat, ghost c: seq<int>)
      requires Widening(c, contents[..], len + 1, curenc, encoding, prepend)
      modifies contents
      ensures Widening(c, contents[..], len, curenc, encoding, prepend)
    {
      hide *;
      WideningStep(c, contents[..], len + 1, curenc, encoding, prepend);
      var v := Read(len, curenc);
      Write(len + prepend, v);
    }

    /** Room for one more element, at a width that is no narrower. */
    method Grow(ghost curenc: nat)
      requires Width(curenc) && Width(encoding) && curenc <= encoding && length < MAX_LENGTH
      requires contents.Length == At(length, curenc)
      modifies this`contents
      ensures fresh(contents) && contents.Length == At(length + 1, encoding)
      ensures Grown(old(contents[..]), contents[..])
    {
      ghost var s := contents[..];
      Scale(length, curenc, encoding);
      Before(length, length + 1, encoding);
      Resize(length + 1);
      GrownPrefix(s, contents[..], |s|);
    }

    lemma ValidBy(c: seq<int>)
      requires Width(encoding) && length <= MAX_LENGTH && contents.Length == At(length, encoding)
      requires Elements(contents[..], length, encoding) == c && Sorted(c)
      ensures Valid() && Contents() == c && Members() == SetOf(c)
    {
    }

    /** `intsetAdd` (intset.c:208-235). */
    method Add(value: int) returns (success: bool)
      requires Valid() && Int64(value) && length < MAX_LENGTH
      modifies this, contents
      ensures Valid() && Members() == old(Members()) + {value} && success == (value !in old(Members()))
      ensures length == old(length) + if success then 1 else 0
      ensures encoding == if ValueEncoding(value) > old(encoding) then ValueEncoding(value) else old(encoding)
    {
      if ValueEncoding(value) > encoding {
        UpgradeAndAdd(value);
        return true;
      }
      var found, pos := Search(value);
      if found {
        assert Members() + {value} == Members();
        return false;
      }
      ValueEncodingIs(value, encoding);
      InsertAt(value, pos);
      return true;
    }

    /** The rest of `intsetAdd`, at the place found. */
    method InsertAt(value: int, pos: nat)
      requires Valid() && length < MAX_LENGTH && Place(Contents(), value, pos) && Fits(value, encoding)
      modifies this, contents
      ensures Valid() && length == old(length) + 1 && encoding == old(encoding)
      ensures Contents() == old(Contents())[..pos] + [value] + old(Contents())[pos..]
      ensures value !in old(Members()) && Members() == old(Members()) + {value}
    {
      hide *;
      Parts();
      ghost var c, s := Contents(), contents[..];
      Inserted(c, value, pos);
      PlaceWithin(c, value, pos);
      Grow(encoding);
      AddedElements(s, contents[..], length, encoding, pos, value);
      PutIn(value, pos);
      length := length + 1;
      ValidBy(c[..pos] + [value] + c[pos..]);
    }

    /** The tail moved up, and the value written (intset.c:229-232). */
    method PutIn(value: int, pos: nat)
      requires Width(encoding) && length < MAX_LENGTH && contents.Length == At(length + 1, encoding)
      requires pos <= length && Fits(value, encoding)
      modifies contents
      ensures contents[..] == AddedBytes(old(contents[..]), length, encoding, pos, value)
    {
      hide *;
      AddedIs(contents[..], length, encoding, pos, value);
      OpenUp(pos);
      Write(pos, value);
    }

    method OpenUp(pos: nat)
      requires Width(encoding) && length < MAX_LENGTH && contents.Length == At(length + 1, encoding) && pos <= length
      modifies contents
      ensures contents[..] == Opened(old(contents[..]), length, encoding, pos)
    {
      hide *;
      OpenedIs(contents[..], length, encoding, pos);
      if pos < length {
        MoveTail(pos, pos + 1);
      }
    }

    /** `intsetRemove` (intset.c:238-255). */
    method Remove(value: int) returns (success: bool)
      requires Valid() && Int64(value)
      modifies this, contents
      ensures Valid() && Members() == old(Members()) - {value} && success == (value in old(Members()))
      ensures length == old(length) - (if success then 1 else 0) && encoding == old(encoding)
    {
      if ValueEncoding(value) > encoding {
        AllBeyond(Contents(), contents[..], length, encoding, value);
        NotThere(Contents(), value, if value < 0 then 0 else length);
        return false;
      }
      var found, pos := Search(value);
      if found {
        RemoveAt(pos);
      } else {
        assert Members() - {value} == Members();
      }
      return found;
    }

    method RemoveAt(pos: nat)
      requires Valid() && pos < length
      modifies this, contents
      ensures Valid() && length == old(length) - 1 && encoding == old(encoding)
      ensures Contents() == old(Contents())[..pos] + old(Contents())[pos + 1..]
      ensures Members() == old(Members()) - {old(Contents())[pos]}
    {
      hide *;
      Parts();
      ghost var c, s := Contents(), contents[..];
      Removed(c, pos);
      CloseUp(pos);
      Shrink();
      RemovedElements(s, length + 1, encoding, pos, contents[..]);
      ValidBy(c[..pos] + c[pos + 1..]);
    }

    /** The tail moved down over the element (intset.c:250). */
    method CloseUp(pos: nat)
      requires Shaped() && pos < length
      modifies contents
      ensures contents[..] == RemovedBytes(old(contents[..]), length, encoding, pos)
    {
      RemovedIs(contents[..], length, encoding, pos);
      hide *;
      if pos < length - 1 {
        MoveTail(pos + 1, pos);
      }
    }

    /** The last element cut off (intset.c:251-252). */
    method Shrink()
      requires Shaped() && length > 0
      modifies this`contents, this`length
      ensures Shaped() && length == old(length) - 1 && fresh(contents)
      ensures Width(encoding) && length <= MAX_LENGTH && contents.Length == At(length, encoding)
      ensures Grown(contents[..], old(contents[..]))
    {
      ghost var s := contents[..];
      var len: nat := length;
      Before(len - 1, len, encoding);
      Resize(len - 1);
      length := len - 1;
      GrownPrefix(s, contents[..], |contents[..]|);
    }

    /** `intsetFind` (intset.c:258-261). */
    method Find(value: int) returns (r: bool)
      requires Valid() && Int64(value)
      ensures r <==> value in Members()
    {
      if ValueEncoding(value) > encoding {
        AllBeyond(Contents(), contents[..], length, encoding, value);
        NotThere(Contents(), value, if value < 0 then 0 else length);
        return false;
      }
      var pos: nat;
      r, pos := Search(value);
    }
  }

  lemma NotThere(c: seq<int>, value: int, pos: nat)
    requires Place(c, value, pos)
    ensures value !in SetOf(c) && SetOf(c) - {value} == SetOf(c)
  {
  }

  lemma PlaceWithin(c: seq<int>, value: int, pos: nat)
    requires Place(c, value, pos)
    ensures pos <= |c|
  {
  }

  lemma OpenedIs(t: seq<Byte>, n: nat, w: nat, pos: nat)
    requires Width(w) && |t| == At(n + 1, w) && pos <= n
    ensures pos < n ==> At(pos + (n - pos), w) <= |t| && At(pos + 1 + (n - pos), w) <= |t|
    ensures Opened(t, n, w, pos) == if pos < n then Tail(t, w, pos, pos + 1, n - pos) else t
  {
    hide Tail;
  }

  lemma RemovedIs(s: seq<Byte>, n: nat, w: nat, pos: nat)
    requires Width(w) && |s| == At(n, w) && pos < n
    ensures pos < n - 1 ==> At(pos + 1 + (n - (pos + 1)), w) <= |s| && At(pos + (n - (pos + 1)), w) <= |s|
    ensures RemovedBytes(s, n, w, pos) == if pos < n - 1 then Tail(s, w, pos + 1, pos, n - (pos + 1)) else s
  {
    assert n - 1 - pos == n - (pos + 1);
    hide Tail;
  }

  /** A value that does not fit is at one end. */
  lemma AllBeyond(c: seq<int>, s: seq<Byte>, n: nat, w: nat, value: int)
    requires Width(w) && At(n, w) <= |s| && c == Elements(s, n, w) && Int64(value) && ValueEncoding(value) > w
    ensures Place(c, value, if value < 0 then 0 else |c|)
  {
    forall i | 0 <= i < n ensures if value < 0 then value < c[i] else c[i] < value {
      ElementAt(s, n, w, i);
      Outside(value, w, c[i]);
    }
  }

  lemma WideningShape(c: seq<int>, s: seq<Byte>, i: nat, old_: nat, w: nat, prepend: nat)
    requires Widening(c, s, i, old_, w, prepend)
    ensures Width(w) && |s| == At(|c| + 1, w)
  {
  }

  lemma Ends(c: seq<int>, value: int, prepend: nat)
    requires prepend <= 1
    ensures var at := if prepend == 1 then 0 else |c|;
      c[..at] + [value] + c[at..] == if prepend == 1 then [value] + c else c + [value]
  {
  }
}
