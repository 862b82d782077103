/** The footer of DUMP payloads in cluster.c: two bytes of version and eight of checksum. The serialized
    object before it is any string. */
module DumpPayload {
  import opened Crc64
  import opened WordBytes

  const RDB_VERSION: bv16 := 6

  function Store(w: bv64): (s: seq<bv8>)
    ensures |s| == 8
  {
    [ByteOf(w, 0), ByteOf(w, 1), ByteOf(w, 2), ByteOf(w, 3), ByteOf(w, 4), ByteOf(w, 5), ByteOf(w, 6), ByteOf(w, 7)]
  }

  function Version(low: bv8, high: bv8): bv16 { ((high as bv16) << 8) | (low as bv16) }

  function VersionBytes(): (s: seq<bv8>)
    ensures |s| == 2
  {
    [(RDB_VERSION & 0xFF) as bv8, ((RDB_VERSION >> 8) & 0xFF) as bv8]
  }

  /** What `createDumpPayload` makes of the serialized object. */
  function Footed(body: seq<bv8>): (p: seq<bv8>)
    ensures |p| == |body| + 10
  {
    body + VersionBytes() + Store(Crc(0, body + VersionBytes()))
  }

  /** What `verifyDumpPayload` accepts. */
  predicate Accepted(p: seq<bv8>) {
    var n := |p|;
    && n >= 10
    && Version(p[n - 10], p[n - 9]) == RDB_VERSION
    && Store(Crc(0, p[..n - 8])) == p[n - 8..]
  }

  /** The footer byte by byte: version 6, low byte first, then the checksum of all before it, lowest byte
      first. */
  predicate Sealed(p: seq<bv8>) {
    var n := |p|;
    && n >= 10 && p[n - 10] == 6 && p[n - 9] == 0
    && Word(p[n - 8], p[n - 7], p[n - 6], p[n - 5], p[n - 4], p[n - 3], p[n - 2], p[n - 1]) == Crc(0, p[..n - 8])
  }

  lemma AcceptedIsSealed(p: seq<bv8>)
    ensures Accepted(p) <==> Sealed(p)
  {
    hide Crc;
    hide Word;
    hide ByteOf;
    hide Version;
    hide VersionBytes;
    hide Store;
    if |p| >= 10 {
      var n := |p|;
      var w := Crc(0, p[..n - 8]);
      VersionIs(p[n - 10], p[n - 9]);
      VersionSix();
      LoadStored(w);
      StoredByte(w);
      StoredWord(p[n - 8], p[n - 7], p[n - 6], p[n - 5], p[n - 4], p[n - 3], p[n - 2], p[n - 1]);
      assert p[n - 8..] ==
             [p[n - 8], p[n - 7], p[n - 6], p[n - 5], p[n - 4], p[n - 3], p[n - 2], p[n - 1]];
    }
  }

  lemma VersionSix()
    ensures VersionBytes() == [6, 0]
  {
  }

  lemma StoredWord(a: bv8, b: bv8, c: bv8, d: bv8, e: bv8, f: bv8, g: bv8, h: bv8)
    ensures Store(Word(a, b, c, d, e, f, g, h)) == [a, b, c, d, e, f, g, h]
  {
    LowBytes(a, b, c, d, e, f, g, h);
    HighBytes(a, b, c, d, e, f, g, h);
    hide Word;
    hide ByteOf;
  }

  /** `createDumpPayload` (cluster.c:4377-4404), from the serialized object on. */
  method CreateDumpPayload(body: seq<bv8>) returns (p: seq<bv8>)
    ensures p == Footed(body)
    ensures |p| == |body| + 10 && p[..|body|] == body && Sealed(p)
  {
    CreatedAccepted(body);
    AcceptedIsSealed(Footed(body));
    hide Sealed;
    hide Accepted;
    p := body + VersionBytes();
    var crc := ComputeCrc64(0, p);
    hide Store;
    hide VersionBytes;
    hide Crc;
    p := p + Store(crc);
  }

  /** `verifyDumpPayload` (cluster.c:4410-4427). */
  method VerifyDumpPayload(p: seq<bv8>) returns (ok: bool)
    ensures ok == Accepted(p) && ok == Sealed(p)
  {
    AcceptedIsSealed(p);
    hide Sealed;
    hide Store;
    hide Version;
    hide Crc;
    if |p| < 10 {
      return false;
    }
    var footer := p[|p| - 10..];
    var rdbver := Version(footer[0], footer[1]);
    if rdbver != RDB_VERSION {
      return false;
    }
    var crc := ComputeCrc64(0, p[..|p| - 8]);
    assert footer[2..] == p[|p| - 8..];
    ok := Store(crc) == footer[2..];
  }

  lemma VersionIs(low: bv8, high: bv8)
    ensures Version(low, high) == RDB_VERSION <==> [low, high] == VersionBytes()
  {
    RawVersion(low, high);
  }

  lemma RawVersion(low: bv8, high: bv8)
    ensures ((high as bv16) << 8) | (low as bv16) == 6 <==> low == 6 && high == 0
  {
  }

  /** Exactly the payloads with the right footer are accepted. */
  lemma AcceptedIsFooted(p: seq<bv8>)
    ensures Accepted(p) <==> |p| >= 10 && p == Footed(p[..|p| - 10])
  {
    if |p| >= 10 {
      var n := |p|;
      var body := p[..n - 10];
      VersionIs(p[n - 10], p[n - 9]);
      hide Store;
      hide Version;
      hide VersionBytes;
      hide Crc;
      assert p[..n - 8] == body + [p[n - 10], p[n - 9]];
      assert p == body + [p[n - 10], p[n - 9]] + p[n - 8..];
      assert Footed(body)[n - 8..] == Store(Crc(0, body + VersionBytes()));
      assert Footed(body)[n - 10..n - 8] == VersionBytes();
      if p == Footed(body) {
        assert [p[n - 10], p[n - 9]] == p[n - 10..n - 8];
      }
    }
  }

  /** Every payload created is accepted. */
  lemma CreatedAccepted(body: seq<bv8>)
    ensures Accepted(Footed(body))
  {
    AcceptedIsFooted(Footed(body));
    assert Footed(body)[..|Footed(body)| - 10] == body;
    hide Footed;
    hide Accepted;
  }

  lemma LoadStored(w: bv64)
    ensures Word(ByteOf(w, 0), ByteOf(w, 1), ByteOf(w, 2), ByteOf(w, 3), ByteOf(w, 4), ByteOf(w, 5), ByteOf(w, 6),
                 ByteOf(w, 7)) == w
  {
  }

  lemma StoreInjective(w: bv64, v: bv64)
    requires Store(w) == Store(v)
    ensures w == v
  {
    LoadStored(w);
    LoadStored(v);
    StoredByte(w);
    StoredByte(v);
    hide *;
  }

  lemma StoredByte(w: bv64)
    ensures Store(w)[0] == ByteOf(w, 0) && Store(w)[1] == ByteOf(w, 1) && Store(w)[2] == ByteOf(w, 2)
    ensures Store(w)[3] == ByteOf(w, 3) && Store(w)[4] == ByteOf(w, 4) && Store(w)[5] == ByteOf(w, 5)
    ensures Store(w)[6] == ByteOf(w, 6) && Store(w)[7] == ByteOf(w, 7)
  {
    hide ByteOf;
  }

  /** Strings of one length that are the same outside the eight bytes from `k` on. */
  ghost predicate Burst(p: seq<bv8>, q: seq<bv8>, k: nat, n: nat) {
    && |p| == |q| && n <= 8 && k + n <= |p|
    && p[..k] == q[..k] && p[k + n..] == q[k + n..]
  }

  lemma ThreeParts(s: seq<bv8>, k: nat, m: nat)
    requires k <= m <= |s|
    ensures s == (s[..k] + s[k..m]) + s[m..]
  {
  }

  lemma InThree(s: seq<bv8>, k: nat, m: nat)
    requires k <= m <= |s|
    ensures s == (s[..k] + s[k..m]) + s[m..]
    ensures Crc(0, s) == Crc(Crc(Crc(0, s[..k]), s[k..m]), s[m..])
  {
    hide *;
    ThreeParts(s, k, m);
    var a, b, c := s[..k], s[k..m], s[m..];
    Chained(0, a, b);
    Chained(0, a + b, c);
  }

  /** A change within eight bytes changes the checksum. */
  lemma BurstChanges(s: seq<bv8>, t: seq<bv8>, k: nat, n: nat)
    requires Burst(s, t, k, n) && Crc(0, s) == Crc(0, t)
    ensures s == t
  {
    hide Crc;
    InThree(s, k, k + n);
    InThree(t, k, k + n);
    var c := Crc(0, s[..k]);
    CrcInjective(Crc(c, s[k..k + n]), Crc(c, t[k..k + n]), s[k + n..]);
    BurstMatters(c, s[k..k + n], t[k..k + n]);
  }

  /** A string that differs from an accepted one within eight consecutive bytes, all of them checked or
      all of them in the checksum, is rejected. */
  lemma RejectsBurst(p: seq<bv8>, q: seq<bv8>, k: nat, n: nat)
    requires Accepted(p) && Burst(p, q, k, n) && (k + n <= |p| - 8 || k >= |p| - 8) && p != q
    ensures !Accepted(q)
  {
    var m := |p| - 8;
    hide Store;
    hide Version;
    hide Crc;
    assert p == p[..m] + p[m..] && q == q[..m] + q[m..];
    if k >= m {
      assert p[..m] == p[..k][..m] && q[..m] == q[..k][..m];
    } else {
      Tails(p, q, k, n, m);
      if Accepted(q) {
        StoreInjective(Crc(0, p[..m]), Crc(0, q[..m]));
        BurstChanges(p[..m], q[..m], k, n);
      }
    }
  }

  lemma Tails(p: seq<bv8>, q: seq<bv8>, k: nat, n: nat, m: nat)
    requires Burst(p, q, k, n) && k + n <= m <= |p|
    ensures p[m..] == q[m..] && Burst(p[..m], q[..m], k, n)
  {
    assert p[m..] == p[k + n..][m - (k + n)..] && q[m..] == q[k + n..][m - (k + n)..];
    assert p[..m][..k] == p[..k] && q[..m][..k] == q[..k];
    assert p[..m][k + n..] == p[k + n..][..m - (k + n)] && q[..m][k + n..] == q[k + n..][..m - (k + n)];
  }

  /** A string that differs from an accepted one in exactly one byte is rejected. */
  lemma RejectsOneByte(p: seq<bv8>, k: nat, b: bv8)
    requires Accepted(p) && k < |p| && p[k] != b
    ensures !Accepted(p[k := b])
  {
    var q := p[k := b];
    assert q[k] == b;
    hide Accepted;
    assert p[..k] == q[..k] && p[k + 1..] == q[k + 1..];
    RejectsBurst(p, q, k, 1);
  }
}
