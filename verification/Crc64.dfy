/** The checksum of crc64.c: a table of 256 words, and the bit-at-a-time checksum it stands for. */
module Crc64 {
  // ---- One bit at a time ----

  function Half(v: bv64): bv64 { v >> 1 }

  function Xor(x: bv64, y: bv64): bv64 { x ^ y }

  predicate Odd(v: bv64) { v & 1 != 0 }

  /** One bit is shifted out of the register; the polynomial, lowest power highest, is added if it was set. */
  function Shift(v: bv64): bv64 { if Odd(v) then Xor(Half(v), 0x95ac9329ac4bc9b5) else Half(v) }

  function Shift8(v: bv64): bv64 { Shift(Shift(Shift(Shift(Shift(Shift(Shift(Shift(v)))))))) }

  /** A byte goes into the low end, and eight bits are shifted out. */
  function SlowStep(crc: bv64, b: bv8): bv64 { Shift8(Xor(crc, b as bv64)) }

  lemma XorIs(x: bv64, y: bv64)
    ensures Xor(x, y) == x ^ y
  {
  }

  lemma XorBoth(x: bv64, y: bv64, p: bv64)
    ensures Xor(x ^ p, y ^ p) == Xor(x, y)
  {
  }

  lemma XorLeft(x: bv64, y: bv64, p: bv64)
    ensures Xor(x ^ p, y) == Xor(x ^ y, p)
  {
  }

  lemma XorRight(x: bv64, y: bv64, p: bv64)
    ensures Xor(x, y ^ p) == Xor(x ^ y, p)
  {
  }

  lemma XorMoves(x: bv64, y: bv64, p: bv64)
    ensures Xor(Xor(x, p), Xor(y, p)) == Xor(x, y)
    ensures Xor(Xor(x, p), y) == Xor(Xor(x, y), p) && Xor(x, Xor(y, p)) == Xor(Xor(x, y), p)
  {
    hide *;
    XorIs(x, p);
    XorIs(y, p);
    XorIs(x, y);
    XorBoth(x, y, p);
    XorLeft(x, y, p);
    XorRight(x, y, p);
  }

  lemma HalfXor(x: bv64, y: bv64)
    ensures Half(Xor(x, y)) == Xor(Half(x), Half(y))
  {
  }

  lemma OddXor(x: bv64, y: bv64)
    ensures Odd(Xor(x, y)) <==> Odd(x) != Odd(y)
  {
  }

  /** A shift of a sum is the sum of the shifts. */
  lemma ShiftXor(x: bv64, y: bv64)
    ensures Shift(Xor(x, y)) == Xor(Shift(x), Shift(y))
  {
    hide Half;
    hide Xor;
    hide Odd;
    HalfXor(x, y);
    OddXor(x, y);
    XorMoves(Half(x), Half(y), 0x95ac9329ac4bc9b5);
  }

  lemma Shift8Xor(x: bv64, y: bv64)
    ensures Shift8(Xor(x, y)) == Xor(Shift8(x), Shift8(y))
  {
    hide Shift;
    hide Xor;
    var x1, y1 := Shift(x), Shift(y);
    var x2, y2 := Shift(x1), Shift(y1);
    var x3, y3 := Shift(x2), Shift(y2);
    var x4, y4 := Shift(x3), Shift(y3);
    var x5, y5 := Shift(x4), Shift(y4);
    var x6, y6 := Shift(x5), Shift(y5);
    var x7, y7 := Shift(x6), Shift(y6);
    ShiftXor(x, y);
    ShiftXor(x1, y1);
    ShiftXor(x2, y2);
    ShiftXor(x3, y3);
    ShiftXor(x4, y4);
    ShiftXor(x5, y5);
    ShiftXor(x6, y6);
    ShiftXor(x7, y7);
  }

  /** The top bit says whether the polynomial was added, so a shift can be undone. */
  function Unshift(w: bv64): bv64 {
    if w & 0x8000_0000_0000_0000 != 0 then ((w ^ 0x95ac9329ac4bc9b5) << 1) | 1 else w << 1
  }

  lemma Undone(v: bv64)
    ensures Unshift(Shift(v)) == v
  {
  }

  function Unshift8(w: bv64): bv64 {
    Unshift(Unshift(Unshift(Unshift(Unshift(Unshift(Unshift(Unshift(w))))))))
  }

  lemma Undone8(v: bv64)
    ensures Unshift8(Shift8(v)) == v
  {
    hide Shift;
    hide Unshift;
    var v1 := Shift(v);
    var v2 := Shift(v1);
    var v3 := Shift(v2);
    var v4 := Shift(v3);
    var v5 := Shift(v4);
    var v6 := Shift(v5);
    var v7 := Shift(v6);
    Undone(v);
    Undone(v1);
    Undone(v2);
    Undone(v3);
    Undone(v4);
    Undone(v5);
    Undone(v6);
    Undone(v7);
  }

  lemma RedoneHigh(w: bv64)
    requires w & 0x8000_0000_0000_0000 != 0
    ensures (((w ^ 0x95ac9329ac4bc9b5) << 1) | 1) & 1 == 1
    ensures ((((w ^ 0x95ac9329ac4bc9b5) << 1) | 1) >> 1) ^ 0x95ac9329ac4bc9b5 == w
  {
  }

  lemma RedoneLow(w: bv64)
    requires w & 0x8000_0000_0000_0000 == 0
    ensures (w << 1) & 1 == 0 && (w << 1) >> 1 == w
  {
  }

  lemma Redone(w: bv64)
    ensures Shift(Unshift(w)) == w
  {
    if w & 0x8000_0000_0000_0000 != 0 {
      RedoneHigh(w);
    } else {
      RedoneLow(w);
    }
  }

  lemma Redone8(w: bv64)
    ensures Shift8(Unshift8(w)) == w
  {
    hide Shift;
    hide Unshift;
    var w1 := Unshift(w);
    var w2 := Unshift(w1);
    var w3 := Unshift(w2);
    var w4 := Unshift(w3);
    var w5 := Unshift(w4);
    var w6 := Unshift(w5);
    var w7 := Unshift(w6);
    Redone(w);
    Redone(w1);
    Redone(w2);
    Redone(w3);
    Redone(w4);
    Redone(w5);
    Redone(w6);
    Redone(w7);
  }

  // ---- The table ----

  function Pick(l: bv8, c0: bv64, c1: bv64, c2: bv64, c3: bv64, c4: bv64, c5: bv64, c6: bv64, c7: bv64): bv64 {
    if l == 0 then c0 else if l == 1 then c1 else if l == 2 then c2 else if l == 3 then c3
    else if l == 4 then c4 else if l == 5 then c5 else if l == 6 then c6 else c7
  }

  // `crc64_tab`, sixteen to a row.

  function Row0(l: bv8): bv64 {
    if l & 8 == 0 then
      Pick(l, 0x0000000000000000, 0x7ad870c830358979, 0xf5b0e190606b12f2, 0x8f689158505e9b8b,
           0xc038e5739841b68f, 0xbae095bba8743ff6, 0x358804e3f82aa47d, 0x4f50742bc81f2d04)
    else
      Pick(l & 7, 0xab28ecb46814fe75, 0xd1f09c7c5821770c, 0x5e980d24087fec87, 0x24407dec384a65fe,
           0x6b1009c7f05548fa, 0x11c8790fc060c183, 0x9ea0e857903e5a08, 0xe478989fa00bd371)
  }

  function Row1(l: bv8): bv64 {
    if l & 8 == 0 then
      Pick(l, 0x7d08ff3b88be6f81, 0x07d08ff3b88be6f8, 0x88b81eabe8d57d73, 0xf2606e63d8e0f40a,
           0xbd301a4810ffd90e, 0xc7e86a8020ca5077, 0x4880fbd87094cbfc, 0x32588b1040a14285)
    else
      Pick(l & 7, 0xd620138fe0aa91f4, 0xacf86347d09f188d, 0x2390f21f80c18306, 0x594882d7b0f40a7f,
           0x1618f6fc78eb277b, 0x6cc0863448deae02, 0xe3a8176c18803589, 0x997067a428b5bcf0)
  }

  function Row2(l: bv8): bv64 {
    if l & 8 == 0 then
      Pick(l, 0xfa11fe77117cdf02, 0x80c98ebf2149567b, 0x0fa11fe77117cdf0, 0x75796f2f41224489,
           0x3a291b04893d698d, 0x40f16bccb908e0f4, 0xcf99fa94e9567b7f, 0xb5418a5cd963f206)
    else
      Pick(l & 7, 0x513912c379682177, 0x2be1620b495da80e, 0xa489f35319033385, 0xde51839b2936bafc,
           0x9101f7b0e12997f8, 0xebd98778d11c1e81, 0x64b116208142850a, 0x1e6966e8b1770c73)
  }

  function Row3(l: bv8): bv64 {
    if l & 8 == 0 then
      Pick(l, 0x8719014c99c2b083, 0xfdc17184a9f739fa, 0x72a9e0dcf9a9a271, 0x08719014c99c2b08,
           0x4721e43f0183060c, 0x3df994f731b68f75, 0xb29105af61e814fe, 0xc849756751dd9d87)
    else
      Pick(l & 7, 0x2c31edf8f1d64ef6, 0x56e99d30c1e3c78f, 0xd9810c6891bd5c04, 0xa3597ca0a188d57d,
           0xec09088b6997f879, 0x96d1784359a27100, 0x19b9e91b09fcea8b, 0x636199d339c963f2)
  }

  function Row4(l: bv8): bv64 {
    if l & 8 == 0 then
      Pick(l, 0xdf7adabd7a6e2d6f, 0xa5a2aa754a5ba416, 0x2aca3b2d1a053f9d, 0x50124be52a30b6e4,
           0x1f423fcee22f9be0, 0x659a4f06d21a1299, 0xeaf2de5e82448912, 0x902aae96b271006b)
    else
      Pick(l & 7, 0x74523609127ad31a, 0x0e8a46c1224f5a63, 0x81e2d7997211c1e8, 0xfb3aa75142244891,
           0xb46ad37a8a3b6595, 0xceb2a3b2ba0eecec, 0x41da32eaea507767, 0x3b024222da65fe1e)
  }

  function Row5(l: bv8): bv64 {
    if l & 8 == 0 then
      Pick(l, 0xa2722586f2d042ee, 0xd8aa554ec2e5cb97, 0x57c2c41692bb501c, 0x2d1ab4dea28ed965,
           0x624ac0f56a91f461, 0x1892b03d5aa47d18, 0x97fa21650afae693, 0xed2251ad3acf6fea)
    else
      Pick(l & 7, 0x095ac9329ac4bc9b, 0x7382b9faaaf135e2, 0xfcea28a2faafae69, 0x8632586aca9a2710,
           0xc9622c4102850a14, 0xb3ba5c8932b0836d, 0x3cd2cdd162ee18e6, 0x460abd1952db919f)
  }

  function Row6(l: bv8): bv64 {
    if l & 8 == 0 then
      Pick(l, 0x256b24ca6b12f26d, 0x5fb354025b277b14, 0xd0dbc55a0b79e09f, 0xaa03b5923b4c69e6,
           0xe553c1b9f35344e2, 0x9f8bb171c366cd9b, 0x10e3202993385610, 0x6a3b50e1a30ddf69)
    else
      Pick(l & 7, 0x8e43c87e03060c18, 0xf49bb8b633338561, 0x7bf329ee636d1eea, 0x012b592653589793,
           0x4e7b2d0d9b47ba97, 0x34a35dc5ab7233ee, 0xbbcbcc9dfb2ca865, 0xc113bc55cb19211c)
  }

  function Row7(l: bv8): bv64 {
    if l & 8 == 0 then
      Pick(l, 0x5863dbf1e3ac9dec, 0x22bbab39d3991495, 0xadd33a6183c78f1e, 0xd70b4aa9b3f20667,
           0x985b3e827bed2b63, 0xe2834e4a4bd8a21a, 0x6debdf121b863991, 0x1733afda2bb3b0e8)
    else
      Pick(l & 7, 0xf34b37458bb86399, 0x8993478dbb8deae0, 0x06fbd6d5ebd3716b, 0x7c23a61ddbe6f812,
           0x3373d23613f9d516, 0x49aba2fe23cc5c6f, 0xc6c333a67392c7e4, 0xbc1b436e43a74e9d)
  }

  function Row8(l: bv8): bv64 {
    if l & 8 == 0 then
      Pick(l, 0x95ac9329ac4bc9b5, 0xef74e3e19c7e40cc, 0x601c72b9cc20db47, 0x1ac40271fc15523e,
           0x5594765a340a7f3a, 0x2f4c0692043ff643, 0xa02497ca54616dc8, 0xdafce7026454e4b1)
    else
      Pick(l & 7, 0x3e847f9dc45f37c0, 0x445c0f55f46abeb9, 0xcb349e0da4342532, 0xb1eceec59401ac4b,
           0xfebc9aee5c1e814f, 0x8464ea266c2b0836, 0x0b0c7b7e3c7593bd, 0x71d40bb60c401ac4)
  }

  function Row9(l: bv8): bv64 {
    if l & 8 == 0 then
      Pick(l, 0xe8a46c1224f5a634, 0x927c1cda14c02f4d, 0x1d148d82449eb4c6, 0x67ccfd4a74ab3dbf,
           0x289c8961bcb410bb, 0x5244f9a98c8199c2, 0xdd2c68f1dcdf0249, 0xa7f41839ecea8b30)
    else
      Pick(l & 7, 0x438c80a64ce15841, 0x3954f06e7cd4d138, 0xb63c61362c8a4ab3, 0xcce411fe1cbfc3ca,
           0x83b465d5d4a0eece, 0xf96c151de49567b7, 0x76048445b4cbfc3c, 0x0cdcf48d84fe7545)
  }

  function RowA(l: bv8): bv64 {
    if l & 8 == 0 then
      Pick(l, 0x6fbd6d5ebd3716b7, 0x15651d968d029fce, 0x9a0d8ccedd5c0445, 0xe0d5fc06ed698d3c,
           0xaf85882d2576a038, 0xd55df8e515432941, 0x5a3569bd451db2ca, 0x20ed197575283bb3)
    else
      Pick(l & 7, 0xc49581ead523e8c2, 0xbe4df122e51661bb, 0x3125607ab548fa30, 0x4bfd10b2857d7349,
           0x04ad64994d625e4d, 0x7e7514517d57d734, 0xf11d85092d094cbf, 0x8bc5f5c11d3cc5c6)
  }

  function RowB(l: bv8): bv64 {
    if l & 8 == 0 then
      Pick(l, 0x12b5926535897936, 0x686de2ad05bcf04f, 0xe70573f555e26bc4, 0x9ddd033d65d7e2bd,
           0xd28d7716adc8cfb9, 0xa85507de9dfd46c0, 0x273d9686cda3dd4b, 0x5de5e64efd965432)
    else
      Pick(l & 7, 0xb99d7ed15d9d8743, 0xc3450e196da80e3a, 0x4c2d9f413df695b1, 0x36f5ef890dc31cc8,
           0x79a59ba2c5dc31cc, 0x037deb6af5e9b8b5, 0x8c157a32a5b7233e, 0xf6cd0afa9582aa47)
  }

  function RowC(l: bv8): bv64 {
    if l & 8 == 0 then
      Pick(l, 0x4ad64994d625e4da, 0x300e395ce6106da3, 0xbf66a804b64ef628, 0xc5bed8cc867b7f51,
           0x8aeeace74e645255, 0xf036dc2f7e51db2c, 0x7f5e4d772e0f40a7, 0x05863dbf1e3ac9de)
    else
      Pick(l & 7, 0xe1fea520be311aaf, 0x9b26d5e88e0493d6, 0x144e44b0de5a085d, 0x6e963478ee6f8124,
           0x21c640532670ac20, 0x5b1e309b16452559, 0xd476a1c3461bbed2, 0xaeaed10b762e37ab)
  }

  function RowD(l: bv8): bv64 {
    if l & 8 == 0 then
      Pick(l, 0x37deb6af5e9b8b5b, 0x4d06c6676eae0222, 0xc26e573f3ef099a9, 0xb8b627f70ec510d0,
           0xf7e653dcc6da3dd4, 0x8d3e2314f6efb4ad, 0x0256b24ca6b12f26, 0x788ec2849684a65f)
    else
      Pick(l & 7, 0x9cf65a1b368f752e, 0xe62e2ad306bafc57, 0x6946bb8b56e467dc, 0x139ecb4366d1eea5,
           0x5ccebf68aecec3a1, 0x2616cfa09efb4ad8, 0xa97e5ef8cea5d153, 0xd3a62e30fe90582a)
  }

  function RowE(l: bv8): bv64 {
    if l & 8 == 0 then
      Pick(l, 0xb0c7b7e3c7593bd8, 0xca1fc72bf76cb2a1, 0x45775673a732292a, 0x3faf26bb9707a053,
           0x70ff52905f188d57, 0x0a2722586f2d042e, 0x854fb3003f739fa5, 0xff97c3c80f4616dc)
    else
      Pick(l & 7, 0x1bef5b57af4dc5ad, 0x61372b9f9f784cd4, 0xee5fbac7cf26d75f, 0x9487ca0fff135e26,
           0xdbd7be24370c7322, 0xa10fceec0739fa5b, 0x2e675fb4576761d0, 0x54bf2f7c6752e8a9)
  }

  function RowF(l: bv8): bv64 {
    if l & 8 == 0 then
      Pick(l, 0xcdcf48d84fe75459, 0xb71738107fd2dd20, 0x387fa9482f8c46ab, 0x42a7d9801fb9cfd2,
           0x0df7adabd7a6e2d6, 0x772fdd63e7936baf, 0xf8474c3bb7cdf024, 0x829f3cf387f8795d)
    else
      Pick(l & 7, 0x66e7a46c27f3aa2c, 0x1c3fd4a417c62355, 0x935745fc4798b8de, 0xe98f353477ad31a7,
           0xa6df411fbfb21ca3, 0xdc0731d78f8795da, 0x536fa08fdfd90e51, 0x29b7d047efec8728)
  }

  function Row(h: bv8, l: bv8): bv64 {
    if h == 0 then Row0(l)
    else if h == 1 then Row1(l)
    else if h == 2 then Row2(l)
    else if h == 3 then Row3(l)
    else if h == 4 then Row4(l)
    else if h == 5 then Row5(l)
    else if h == 6 then Row6(l)
    else if h == 7 then Row7(l)
    else if h == 8 then Row8(l)
    else if h == 9 then Row9(l)
    else if h == 10 then RowA(l)
    else if h == 11 then RowB(l)
    else if h == 12 then RowC(l)
    else if h == 13 then RowD(l)
    else if h == 14 then RowE(l)
    else RowF(l)
  }

  function Table(b: bv8): bv64 { Row(b >> 4, b & 0x0F) }

  /** The entry is what eight shifts make of its index. */
  predicate Entry(v: bv64, b: bv8) { v == Shift8(b as bv64) }

  lemma Entries0()
    ensures Entry(Row0(0), 0x00) && Entry(Row0(1), 0x01) && Entry(Row0(2), 0x02) && Entry(Row0(3), 0x03)
    ensures Entry(Row0(4), 0x04) && Entry(Row0(5), 0x05) && Entry(Row0(6), 0x06) && Entry(Row0(7), 0x07)
    ensures Entry(Row0(8), 0x08) && Entry(Row0(9), 0x09) && Entry(Row0(10), 0x0A) && Entry(Row0(11), 0x0B)
    ensures Entry(Row0(12), 0x0C) && Entry(Row0(13), 0x0D) && Entry(Row0(14), 0x0E) && Entry(Row0(15), 0x0F)
  {
  }

  lemma Entries1()
    ensures Entry(Row1(0), 0x10) && Entry(Row1(1), 0x11) && Entry(Row1(2), 0x12) && Entry(Row1(3), 0x13)
    ensures Entry(Row1(4), 0x14) && Entry(Row1(5), 0x15) && Entry(Row1(6), 0x16) && Entry(Row1(7), 0x17)
    ensures Entry(Row1(8), 0x18) && Entry(Row1(9), 0x19) && Entry(Row1(10), 0x1A) && Entry(Row1(11), 0x1B)
    ensures Entry(Row1(12), 0x1C) && Entry(Row1(13), 0x1D) && Entry(Row1(14), 0x1E) && Entry(Row1(15), 0x1F)
  {
  }

  lemma Entries2()
    ensures Entry(Row2(0), 0x20) && Entry(Row2(1), 0x21) && Entry(Row2(2), 0x22) && Entry(Row2(3), 0x23)
    ensures Entry(Row2(4), 0x24) && Entry(Row2(5), 0x25) && Entry(Row2(6), 0x26) && Entry(Row2(7), 0x27)
    ensures Entry(Row2(8), 0x28) && Entry(Row2(9), 0x29) && Entry(Row2(10), 0x2A) && Entry(Row2(11), 0x2B)
    ensures Entry(Row2(12), 0x2C) && Entry(Row2(13), 0x2D) && Entry(Row2(14), 0x2E) && Entry(Row2(15), 0x2F)
  {
  }

  lemma Entries3()
    ensures Entry(Row3(0), 0x30) && Entry(Row3(1), 0x31) && Entry(Row3(2), 0x32) && Entry(Row3(3), 0x33)
    ensures Entry(Row3(4), 0x34) && Entry(Row3(5), 0x35) && Entry(Row3(6), 0x36) && Entry(Row3(7), 0x37)
    ensures Entry(Row3(8), 0x38) && Entry(Row3(9), 0x39) && Entry(Row3(10), 0x3A) && Entry(Row3(11), 0x3B)
    ensures Entry(Row3(12), 0x3C) && Entry(Row3(13), 0x3D) && Entry(Row3(14), 0x3E) && Entry(Row3(15), 0x3F)
  {
  }

  lemma Entries4()
    ensures Entry(Row4(0), 0x40) && Entry(Row4(1), 0x41) && Entry(Row4(2), 0x42) && Entry(Row4(3), 0x43)
    ensures Entry(Row4(4), 0x44) && Entry(Row4(5), 0x45) && Entry(Row4(6), 0x46) && Entry(Row4(7), 0x47)
    ensures Entry(Row4(8), 0x48) && Entry(Row4(9), 0x49) && Entry(Row4(10), 0x4A) && Entry(Row4(11), 0x4B)
    ensures Entry(Row4(12), 0x4C) && Entry(Row4(13), 0x4D) && Entry(Row4(14), 0x4E) && Entry(Row4(15), 0x4F)
  {
  }

  lemma Entries5()
    ensures Entry(Row5(0), 0x50) && Entry(Row5(1), 0x51) && Entry(Row5(2), 0x52) && Entry(Row5(3), 0x53)
    ensures Entry(Row5(4), 0x54) && Entry(Row5(5), 0x55) && Entry(Row5(6), 0x56) && Entry(Row5(7), 0x57)
    ensures Entry(Row5(8), 0x58) && Entry(Row5(9), 0x59) && Entry(Row5(10), 0x5A) && Entry(Row5(11), 0x5B)
    ensures Entry(Row5(12), 0x5C) && Entry(Row5(13), 0x5D) && Entry(Row5(14), 0x5E) && Entry(Row5(15), 0x5F)
  {
  }

  lemma Entries6()
    ensures Entry(Row6(0), 0x60) && Entry(Row6(1), 0x61) && Entry(Row6(2), 0x62) && Entry(Row6(3), 0x63)
    ensures Entry(Row6(4), 0x64) && Entry(Row6(5), 0x65) && Entry(Row6(6), 0x66) && Entry(Row6(7), 0x67)
    ensures Entry(Row6(8), 0x68) && Entry(Row6(9), 0x69) && Entry(Row6(10), 0x6A) && Entry(Row6(11), 0x6B)
    ensures Entry(Row6(12), 0x6C) && Entry(Row6(13), 0x6D) && Entry(Row6(14), 0x6E) && Entry(Row6(15), 0x6F)
  {
  }

  lemma Entries7()
    ensures Entry(Row7(0), 0x70) && Entry(Row7(1), 0x71) && Entry(Row7(2), 0x72) && Entry(Row7(3), 0x73)
    ensures Entry(Row7(4), 0x74) && Entry(Row7(5), 0x75) && Entry(Row7(6), 0x76) && Entry(Row7(7), 0x77)
    ensures Entry(Row7(8), 0x78) && Entry(Row7(9), 0x79) && Entry(Row7(10), 0x7A) && Entry(Row7(11), 0x7B)
    ensures Entry(Row7(12), 0x7C) && Entry(Row7(13), 0x7D) && Entry(Row7(14), 0x7E) && Entry(Row7(15), 0x7F)
  {
  }

  lemma Entries8()
    ensures Entry(Row8(0), 0x80) && Entry(Row8(1), 0x81) && Entry(Row8(2), 0x82) && Entry(Row8(3), 0x83)
    ensures Entry(Row8(4), 0x84) && Entry(Row8(5), 0x85) && Entry(Row8(6), 0x86) && Entry(Row8(7), 0x87)
    ensures Entry(Row8(8), 0x88) && Entry(Row8(9), 0x89) && Entry(Row8(10), 0x8A) && Entry(Row8(11), 0x8B)
    ensures Entry(Row8(12), 0x8C) && Entry(Row8(13), 0x8D) && Entry(Row8(14), 0x8E) && Entry(Row8(15), 0x8F)
  {
  }

  lemma Entries9()
    ensures Entry(Row9(0), 0x90) && Entry(Row9(1), 0x91) && Entry(Row9(2), 0x92) && Entry(Row9(3), 0x93)
    ensures Entry(Row9(4), 0x94) && Entry(Row9(5), 0x95) && Entry(Row9(6), 0x96) && Entry(Row9(7), 0x97)
    ensures Entry(Row9(8), 0x98) && Entry(Row9(9), 0x99) && Entry(Row9(10), 0x9A) && Entry(Row9(11), 0x9B)
    ensures Entry(Row9(12), 0x9C) && Entry(Row9(13), 0x9D) && Entry(Row9(14), 0x9E) && Entry(Row9(15), 0x9F)
  {
  }

  lemma EntriesA()
    ensures Entry(RowA(0), 0xA0) && Entry(RowA(1), 0xA1) && Entry(RowA(2), 0xA2) && Entry(RowA(3), 0xA3)
    ensures Entry(RowA(4), 0xA4) && Entry(RowA(5), 0xA5) && Entry(RowA(6), 0xA6) && Entry(RowA(7), 0xA7)
    ensures Entry(RowA(8), 0xA8) && Entry(RowA(9), 0xA9) && Entry(RowA(10), 0xAA) && Entry(RowA(11), 0xAB)
    ensures Entry(RowA(12), 0xAC) && Entry(RowA(13), 0xAD) && Entry(RowA(14), 0xAE) && Entry(RowA(15), 0xAF)
  {
  }

  lemma EntriesB()
    ensures Entry(RowB(0), 0xB0) && Entry(RowB(1), 0xB1) && Entry(RowB(2), 0xB2) && Entry(RowB(3), 0xB3)
    ensures Entry(RowB(4), 0xB4) && Entry(RowB(5), 0xB5) && Entry(RowB(6), 0xB6) && Entry(RowB(7), 0xB7)
    ensures Entry(RowB(8), 0xB8) && Entry(RowB(9), 0xB9) && Entry(RowB(10), 0xBA) && Entry(RowB(11), 0xBB)
    ensures Entry(RowB(12), 0xBC) && Entry(RowB(13), 0xBD) && Entry(RowB(14), 0xBE) && Entry(RowB(15), 0xBF)
  {
  }

  lemma EntriesC()
    ensures Entry(RowC(0), 0xC0) && Entry(RowC(1), 0xC1) && Entry(RowC(2), 0xC2) && Entry(RowC(3), 0xC3)
    ensures Entry(RowC(4), 0xC4) && Entry(RowC(5), 0xC5) && Entry(RowC(6), 0xC6) && Entry(RowC(7), 0xC7)
    ensures Entry(RowC(8), 0xC8) && Entry(RowC(9), 0xC9) && Entry(RowC(10), 0xCA) && Entry(RowC(11), 0xCB)
    ensures Entry(RowC(12), 0xCC) && Entry(RowC(13), 0xCD) && Entry(RowC(14), 0xCE) && Entry(RowC(15), 0xCF)
  {
  }

  lemma EntriesD()
    ensures Entry(RowD(0), 0xD0) && Entry(RowD(1), 0xD1) && Entry(RowD(2), 0xD2) && Entry(RowD(3), 0xD3)
    ensures Entry(RowD(4), 0xD4) && Entry(RowD(5), 0xD5) && Entry(RowD(6), 0xD6) && Entry(RowD(7), 0xD7)
    ensures Entry(RowD(8), 0xD8) && Entry(RowD(9), 0xD9) && Entry(RowD(10), 0xDA) && Entry(RowD(11), 0xDB)
    ensures Entry(RowD(12), 0xDC) && Entry(RowD(13), 0xDD) && Entry(RowD(14), 0xDE) && Entry(RowD(15), 0xDF)
  {
  }

  lemma EntriesE()
    ensures Entry(RowE(0), 0xE0) && Entry(RowE(1), 0xE1) && Entry(RowE(2), 0xE2) && Entry(RowE(3), 0xE3)
    ensures Entry(RowE(4), 0xE4) && Entry(RowE(5), 0xE5) && Entry(RowE(6), 0xE6) && Entry(RowE(7), 0xE7)
    ensures Entry(RowE(8), 0xE8) && Entry(RowE(9), 0xE9) && Entry(RowE(10), 0xEA) && Entry(RowE(11), 0xEB)
    ensures Entry(RowE(12), 0xEC) && Entry(RowE(13), 0xED) && Entry(RowE(14), 0xEE) && Entry(RowE(15), 0xEF)
  {
  }

  lemma EntriesF()
    ensures Entry(RowF(0), 0xF0) && Entry(RowF(1), 0xF1) && Entry(RowF(2), 0xF2) && Entry(RowF(3), 0xF3)
    ensures Entry(RowF(4), 0xF4) && Entry(RowF(5), 0xF5) && Entry(RowF(6), 0xF6) && Entry(RowF(7), 0xF7)
    ensures Entry(RowF(8), 0xF8) && Entry(RowF(9), 0xF9) && Entry(RowF(10), 0xFA) && Entry(RowF(11), 0xFB)
    ensures Entry(RowF(12), 0xFC) && Entry(RowF(13), 0xFD) && Entry(RowF(14), 0xFE) && Entry(RowF(15), 0xFF)
  {
  }

  /** The row of each number. */
  lemma RowAt(h: bv8, l: bv8)
    requires h < 16
    ensures (h == 0 ==> Row(h, l) == Row0(l)) && (h == 1 ==> Row(h, l) == Row1(l))
    ensures (h == 2 ==> Row(h, l) == Row2(l)) && (h == 3 ==> Row(h, l) == Row3(l))
    ensures (h == 4 ==> Row(h, l) == Row4(l)) && (h == 5 ==> Row(h, l) == Row5(l))
    ensures (h == 6 ==> Row(h, l) == Row6(l)) && (h == 7 ==> Row(h, l) == Row7(l))
    ensures (h == 8 ==> Row(h, l) == Row8(l)) && (h == 9 ==> Row(h, l) == Row9(l))
    ensures (h == 10 ==> Row(h, l) == RowA(l)) && (h == 11 ==> Row(h, l) == RowB(l))
    ensures (h == 12 ==> Row(h, l) == RowC(l)) && (h == 13 ==> Row(h, l) == RowD(l))
    ensures (h == 14 ==> Row(h, l) == RowE(l)) && (h == 15 ==> Row(h, l) == RowF(l))
  {
    hide Row0;
    hide Row1;
    hide Row2;
    hide Row3;
    hide Row4;
    hide Row5;
    hide Row6;
    hide Row7;
    hide Row8;
    hide Row9;
    hide RowA;
    hide RowB;
    hide RowC;
    hide RowD;
    hide RowE;
    hide RowF;
  }

  lemma Nibbles(b: bv8)
    ensures b >> 4 < 16 && b & 0x0F < 16 && b == ((b >> 4) << 4) | (b & 0x0F)
  {
  }

  lemma TableByRow(b: bv8)
    ensures Table(b) == Row(b >> 4, b & 0x0F)
  {
    hide Row;
  }

  /** Every row, by its number. */
  lemma InRow(h: bv8, l: bv8)
    requires h < 16 && l < 16
    ensures Entry(Row(h, l), (h << 4) | l)
  {
    hide *;
    RowAt(h, l);
    if h == 0 {
      Entries0();
    } else if h == 1 {
      Entries1();
    } else if h == 2 {
      Entries2();
    } else if h == 3 {
      Entries3();
    } else if h == 4 {
      Entries4();
    } else if h == 5 {
      Entries5();
    } else if h == 6 {
      Entries6();
    } else if h == 7 {
      Entries7();
    } else if h == 8 {
      Entries8();
    } else if h == 9 {
      Entries9();
    } else if h == 10 {
      EntriesA();
    } else if h == 11 {
      EntriesB();
    } else if h == 12 {
      EntriesC();
    } else if h == 13 {
      EntriesD();
    } else if h == 14 {
      EntriesE();
    } else {
      EntriesF();
    }
  }

  /** The whole table is right. */
  lemma TableIs(b: bv8)
    ensures Table(b) == Shift8(b as bv64)
  {
    hide Shift8;
    hide Table;
    hide Row;
    Nibbles(b);
    TableByRow(b);
    InRow(b >> 4, b & 0x0F);
  }

  // ---- The step ----

  function LowByte(crc: bv64): bv8 { (crc & 0xFF) as bv8 }

  /** `crc64_tab[(uint8_t)crc ^ byte] ^ (crc >> 8)`. */
  function Step(crc: bv64, b: bv8): bv64 { Table(LowByte(crc) ^ b) ^ (crc >> 8) }

  lemma SplitLow(crc: bv64, b: bv8)
    ensures crc ^ (b as bv64) == (((crc & 0xFF) as bv8 ^ b) as bv64) ^ (crc & 0xFFFF_FFFF_FFFF_FF00)
  {
  }

  lemma NoLowByte(v: bv64)
    requires v & 0xFF == 0
    ensures Shift8(v) == v >> 8
  {
  }

  lemma HighOnly(crc: bv64)
    ensures (crc & 0xFFFF_FFFF_FFFF_FF00) & 0xFF == 0 && (crc & 0xFFFF_FFFF_FFFF_FF00) >> 8 == crc >> 8
  {
  }

  lemma StepSplit(crc: bv64, b: bv8)
    ensures Xor(crc, b as bv64) == Xor((LowByte(crc) ^ b) as bv64, crc & 0xFFFF_FFFF_FFFF_FF00)
  {
    SplitLow(crc, b);
  }

  lemma HighShifts(crc: bv64)
    ensures Shift8(crc & 0xFFFF_FFFF_FFFF_FF00) == crc >> 8
  {
    HighOnly(crc);
    NoLowByte(crc & 0xFFFF_FFFF_FFFF_FF00);
    hide Shift8;
  }

  lemma StepDef(crc: bv64, b: bv8)
    ensures Step(crc, b) == Xor(Table(LowByte(crc) ^ b), crc >> 8)
  {
    hide Table;
    hide LowByte;
  }

  lemma SlowStepIs(crc: bv64, b: bv8)
    ensures SlowStep(crc, b) == Shift8(Xor(crc, b as bv64))
  {
    hide Shift8;
    hide Xor;
  }

  /** One table step is eight steps of one bit. */
  lemma StepIs(crc: bv64, b: bv8)
    ensures Step(crc, b) == SlowStep(crc, b)
  {
    hide *;
    StepDef(crc, b);
    TableIs(LowByte(crc) ^ b);
    HighShifts(crc);
    Shift8Xor((LowByte(crc) ^ b) as bv64, crc & 0xFFFF_FFFF_FFFF_FF00);
    StepSplit(crc, b);
    SlowStepIs(crc, b);
  }

  lemma XorUndone(x: bv64, y: bv64)
    ensures Xor(x ^ y, y) == x
  {
  }

  lemma XorTwice(x: bv64, y: bv64)
    ensures Xor(Xor(x, y), y) == x
  {
    hide *;
    XorIs(x, y);
    XorUndone(x, y);
  }

  lemma XorSwaps(x: bv64, y: bv64)
    ensures Xor(x, y) == Xor(y, x)
  {
  }

  lemma SameByte(b: bv8, b': bv8)
    requires b as bv64 == b' as bv64
    ensures b == b'
  {
  }

  /** Equal results from equal bytes come from equal states, and from equal states, from equal bytes. */
  lemma StepInjective(crc: bv64, b: bv8, crc': bv64, b': bv8)
    requires Step(crc, b) == Step(crc', b')
    ensures crc == crc' <==> b == b'
  {
    hide *;
    StepIs(crc, b);
    StepIs(crc', b');
    SlowStepIs(crc, b);
    SlowStepIs(crc', b');
    var x, x' := Xor(crc, b as bv64), Xor(crc', b' as bv64);
    Undone8(x);
    Undone8(x');
    XorTwice(crc, b as bv64);
    XorTwice(crc', b' as bv64);
    XorSwaps(crc, b as bv64);
    XorSwaps(crc', b' as bv64);
    XorTwice(b as bv64, crc);
    XorTwice(b' as bv64, crc');
    if crc == crc' {
      SameByte(b, b');
    }
  }

  /** Every state is reached by every byte: with the above, the step is a bijection of the states. */
  lemma StepOnto(w: bv64, b: bv8) returns (crc: bv64)
    ensures Step(crc, b) == w
  {
    hide *;
    crc := Xor(Unshift8(w), b as bv64);
    StepIs(crc, b);
    SlowStepIs(crc, b);
    XorTwice(Unshift8(w), b as bv64);
    Redone8(w);
  }

  // ---- The checksum ----

  function Crc(crc: bv64, s: seq<bv8>): bv64 {
    if s == [] then crc else Step(Crc(crc, s[..|s| - 1]), s[|s| - 1])
  }

  /** The same, one bit at a time. */
  function SlowCrc(crc: bv64, s: seq<bv8>): bv64 {
    if s == [] then crc else SlowStep(SlowCrc(crc, s[..|s| - 1]), s[|s| - 1])
  }

  /** The table-driven checksum is the bit-at-a-time one. */
  lemma {:induction false} FastIsSlow(crc: bv64, s: seq<bv8>)
    ensures Crc(crc, s) == SlowCrc(crc, s)
    decreases |s|
  {
    hide Step;
    hide SlowStep;
    if s != [] {
      FastIsSlow(crc, s[..|s| - 1]);
      StepIs(Crc(crc, s[..|s| - 1]), s[|s| - 1]);
    }
  }

  /** `crc64` (crc64.c:173-181). */
  method ComputeCrc64(crc0: bv64, s: seq<bv8>) returns (crc: bv64)
    ensures crc == Crc(crc0, s)
  {
    crc := crc0;
    hide Step;
    for j := 0 to |s|
      invariant crc == Crc(crc0, s[..j])
    {
      assert s[..j + 1][..j] == s[..j];
      crc := Step(crc, s[j]);
    }
    assert s[..|s|] == s;
  }

  /** Checksums chain. */
  lemma {:induction false} Chained(crc: bv64, a: seq<bv8>, b: seq<bv8>)
    ensures Crc(Crc(crc, a), b) == Crc(crc, a + b)
    decreases |b|
  {
    hide Step;
    if b == [] {
      assert a + b == a;
    } else {
      assert (a + b)[..|a + b| - 1] == a + b[..|b| - 1];
      Chained(crc, a, b[..|b| - 1]);
    }
  }

  /** The same bytes keep different states different, and lead every state to one of its own. */
  lemma {:induction false} CrcInjective(crc: bv64, crc': bv64, s: seq<bv8>)
    requires Crc(crc, s) == Crc(crc', s)
    ensures crc == crc'
    decreases |s|
  {
    hide Step;
    if s != [] {
      StepInjective(Crc(crc, s[..|s| - 1]), s[|s| - 1], Crc(crc', s[..|s| - 1]), s[|s| - 1]);
      CrcInjective(crc, crc', s[..|s| - 1]);
    }
  }

  /** Changing one byte changes the checksum. */
  lemma OneByteMatters(crc: bv64, s: seq<bv8>, k: nat, b: bv8)
    requires k < |s| && s[k] != b
    ensures Crc(crc, s) != Crc(crc, s[k := b])
  {
    var t := s[k := b];
    var before, after := s[..k], s[k + 1..];
    assert s == before + ([s[k]] + after) && t == before + ([b] + after);
    var c := Crc(crc, before);
    hide Step;
    Chained(crc, before, [s[k]] + after);
    Chained(crc, before, [b] + after);
    Chained(c, [s[k]], after);
    Chained(c, [b], after);
    OneStep(c, s[k]);
    OneStep(c, b);
    if Crc(crc, s) == Crc(crc, t) {
      CrcInjective(Step(c, s[k]), Step(c, b), after);
      StepInjective(c, s[k], c, b);
    }
  }

  lemma OneStep(crc: bv64, b: bv8)
    ensures Crc(crc, [b]) == Step(crc, b)
  {
    assert [b][..0] == [];
    hide Step;
  }

  // ---- Bursts ----

  /** The top `k` bytes of a word. */
  function High(k: nat): bv64
    requires k <= 8
  {
    if k == 0 then 0 else if k == 1 then 0xFF00_0000_0000_0000 else if k == 2 then 0xFFFF_0000_0000_0000
    else if k == 3 then 0xFFFF_FF00_0000_0000 else if k == 4 then 0xFFFF_FFFF_0000_0000
    else if k == 5 then 0xFFFF_FFFF_FF00_0000 else if k == 6 then 0xFFFF_FFFF_FFFF_0000
    else if k == 7 then 0xFFFF_FFFF_FFFF_FF00 else 0xFFFF_FFFF_FFFF_FFFF
  }

  /** The top `k` bytes are zero. */
  predicate Clear(v: bv64, k: nat)
    requires k <= 8
  {
    v & High(k) == 0
  }

  /** Two states agree on their top `k` bytes. */
  predicate Alike(x: bv64, y: bv64, k: nat)
    requires k <= 8
  {
    Clear(Xor(x, y), k)
  }

  lemma XorSelf(x: bv64)
    ensures Xor(x, x) == 0
  {
  }

  lemma XorNone(x: bv64)
    ensures Xor(0, x) == x
  {
  }

  lemma AlikeSelf(x: bv64)
    ensures Alike(x, x, 8)
  {
    XorSelf(x);
    hide Xor;
  }

  lemma FewerClear(v: bv64, k: nat)
    requires 0 < k <= 8 && Clear(v, k)
    ensures Clear(v, 1)
  {
  }

  lemma Unshift8Low(w: bv64)
    requires Clear(w, 1)
    ensures Unshift8(w) == w << 8
  {
  }

  lemma NarrowShifted(z: bv64, w: bv64)
    requires Clear(z, 7) && z == w << 8
    ensures z == 0
  {
  }

  /** Eight shifts bring a byte that is not zero to the top. */
  lemma ReachesTop(z: bv64)
    requires Clear(z, 7) && Clear(Shift8(z), 1)
    ensures z == 0
  {
    hide *;
    Undone8(z);
    Unshift8Low(Shift8(z));
    NarrowShifted(z, Shift8(z));
  }

  lemma TwoBytes(i: bv8, j: bv8)
    ensures Clear(Xor(i as bv64, j as bv64), 7)
    ensures Xor(i as bv64, j as bv64) == 0 ==> i == j
  {
  }

  /** Entries of the table differ in their top byte. */
  lemma TopsDiffer(i: bv8, j: bv8)
    requires Clear(Xor(Table(i), Table(j)), 1)
    ensures i == j
  {
    hide *;
    TableIs(i);
    TableIs(j);
    Shift8Xor(i as bv64, j as bv64);
    TwoBytes(i, j);
    ReachesTop(Xor(i as bv64, j as bv64));
  }

  function Down(x: bv64): bv64 { x >> 8 }

  lemma StepDown(crc: bv64, b: bv8)
    ensures Step(crc, b) == Xor(Table(LowByte(crc) ^ b), Down(crc))
  {
    StepDef(crc, b);
    hide Step;
    hide Xor;
    hide Table;
    hide LowByte;
  }

  lemma DownXor(x: bv64, y: bv64)
    ensures Xor(Down(x), Down(y)) == Down(Xor(x, y))
  {
  }

  /** Sums of sums. */
  lemma Regroup(t: bv64, p: bv64, u: bv64, q: bv64)
    ensures Xor(Xor(t, p), Xor(u, q)) == Xor(Xor(t, u), Xor(p, q))
  {
    hide *;
    XorMoves(t, Xor(u, q), p);
    XorMoves(t, u, q);
    XorMoves(Xor(t, u), p, q);
    XorSwaps(p, q);
  }

  lemma TopSees(v: bv64, w: bv64)
    requires Clear(Xor(v, Down(w)), 1)
    ensures Clear(v, 1)
  {
  }

  lemma ClearDown(w: bv64, k: nat)
    requires 0 < k <= 8 && Clear(Down(w), k)
    ensures Clear(w, k - 1)
  {
  }

  lemma AlikeIs(x: bv64, y: bv64, k: nat)
    requires k <= 8
    ensures Alike(x, y, k) <==> Clear(Xor(x, y), k)
  {
    hide Clear;
    hide Xor;
  }

  /** If the results agree on top, the same entry was used, and the states agreed on one byte less. */
  lemma Backward(x: bv64, a: bv8, y: bv64, b: bv8, k: nat)
    requires 0 < k <= 8 && Alike(Step(x, a), Step(y, b), k)
    ensures LowByte(x) ^ a == LowByte(y) ^ b && Alike(x, y, k - 1)
  {
    hide *;
    var i, j := LowByte(x) ^ a, LowByte(y) ^ b;
    StepDown(x, a);
    StepDown(y, b);
    AlikeIs(Step(x, a), Step(y, b), k);
    Regroup(Table(i), Down(x), Table(j), Down(y));
    DownXor(x, y);
    FewerClear(Xor(Step(x, a), Step(y, b)), k);
    TopSees(Xor(Table(i), Table(j)), Xor(x, y));
    TopsDiffer(i, j);
    XorSelf(Table(i));
    XorNone(Down(Xor(x, y)));
    ClearDown(Xor(x, y), k);
    AlikeIs(x, y, k - 1);
  }

  lemma {:induction false} BackwardMany(x: bv64, a: seq<bv8>, y: bv64, b: seq<bv8>, k: nat)
    requires |a| == |b| <= k <= 8 && Alike(Crc(x, a), Crc(y, b), k)
    ensures Alike(x, y, k - |a|)
    decreases |a|
  {
    hide Alike;
    hide Step;
    if a != [] {
      var n := |a| - 1;
      Backward(Crc(x, a[..n]), a[n], Crc(y, b[..n]), b[n], k);
      BackwardMany(x, a[..n], y, b[..n], k - 1);
    }
  }

  /** Up to eight bytes are determined by the states before and after. */
  lemma {:induction false} BurstMatters(crc: bv64, a: seq<bv8>, b: seq<bv8>)
    requires |a| == |b| <= 8 && Crc(crc, a) == Crc(crc, b)
    ensures a == b
    decreases |a|
  {
    if a != [] {
      FirstByte(crc, a, b);
      hide Step;
      assert a == [a[0]] + a[1..] && b == [b[0]] + b[1..];
      Chained(crc, [a[0]], a[1..]);
      Chained(crc, [b[0]], b[1..]);
      BurstMatters(Crc(crc, [a[0]]), a[1..], b[1..]);
    }
  }

  lemma HeadStep(crc: bv64, a: seq<bv8>)
    requires a != []
    ensures Crc(crc, a) == Crc(Step(crc, a[0]), a[1..])
  {
    assert a == [a[0]] + a[1..];
    hide Crc;
    hide Step;
    Chained(crc, [a[0]], a[1..]);
    OneStep(crc, a[0]);
  }

  lemma FirstByte(crc: bv64, a: seq<bv8>, b: seq<bv8>)
    requires 0 < |a| == |b| <= 8 && Crc(crc, a) == Crc(crc, b)
    ensures a[0] == b[0]
  {
    hide *;
    HeadStep(crc, a);
    HeadStep(crc, b);
    AlikeSelf(Crc(crc, a));
    BackwardMany(Step(crc, a[0]), a[1..], Step(crc, b[0]), b[1..], 8);
    Backward(crc, a[0], crc, b[0], 8 - |a[1..]|);
    SameIndex(LowByte(crc), a[0], b[0]);
  }

  lemma SameIndex(l: bv8, a: bv8, b: bv8)
    requires l ^ a == l ^ b
    ensures a == b
  {
  }

  lemma CrcNext(s: seq<bv8>, k: nat)
    requires k < |s|
    ensures Crc(0, s[..k + 1]) == Step(Crc(0, s[..k]), s[k])
  {
    hide Step;
    assert s[..k + 1][..k] == s[..k];
  }

  /** The digits 1 to 9 in ASCII. */
  function Digits(): seq<bv8> { [49, 50, 51, 52, 53, 54, 55, 56, 57] }

  lemma DigitsAre()
    ensures |Digits()| == 9 && Digits()[0] == 49 && Digits()[1] == 50 && Digits()[2] == 51 && Digits()[3] == 52
    ensures Digits()[4] == 53 && Digits()[5] == 54 && Digits()[6] == 55 && Digits()[7] == 56 && Digits()[8] == 57
  {
  }

  lemma CheckStep(k: nat, before: bv64, after: bv64)
    requires k < |Digits()| && Crc(0, Digits()[..k]) == before && Step(before, Digits()[k]) == after
    ensures Crc(0, Digits()[..k + 1]) == after
  {
    hide *;
    CrcNext(Digits(), k);
  }

  // One table entry each.

  lemma Entry1()
    ensures Step(0x0, 49) == 0xfdc17184a9f739fa
  {
  }

  lemma Entry2()
    ensures Step(0xfdc17184a9f739fa, 50) == 0xe10364513a98ed96
  {
  }

  lemma Entry3()
    ensures Step(0xe10364513a98ed96, 51) == 0xd5bcfb814479b1ac
  {
  }

  lemma Entry4()
    ensures Step(0xd5bcfb814479b1ac, 52) == 0x43593c5dcda521f0
  {
  }

  lemma Entry5()
    ensures Step(0x43593c5dcda521f0, 53) == 0xf0758513239c7e0d
  {
  }

  lemma Entry6()
    ensures Step(0xf0758513239c7e0d, 54) == 0xa3a90925b2ab4903
  {
  }

  lemma Entry7()
    ensures Step(0xa3a90925b2ab4903, 55) == 0x47824d362431ad45
  {
  }

  lemma Entry8()
    ensures Step(0x47824d362431ad45, 56) == 0x49ec20b315e86dc2
  {
  }

  lemma Entry9()
    ensures Step(0x49ec20b315e86dc2, 57) == 0xe9c6d914c4b8d9ca
  {
  }

  lemma ThreeDigits()
    ensures |Digits()| == 9 && Crc(0, Digits()[..3]) == 0xd5bcfb814479b1ac
  {
    hide *;
    DigitsAre();
    CrcNothing(Digits());
    Entry1();
    CheckStep(0, 0x0, 0xfdc17184a9f739fa);
    Entry2();
    CheckStep(1, 0xfdc17184a9f739fa, 0xe10364513a98ed96);
    Entry3();
    CheckStep(2, 0xe10364513a98ed96, 0xd5bcfb814479b1ac);
  }

  lemma SixDigits()
    ensures |Digits()| == 9 && Crc(0, Digits()[..6]) == 0xa3a90925b2ab4903
  {
    hide *;
    DigitsAre();
    ThreeDigits();
    Entry4();
    CheckStep(3, 0xd5bcfb814479b1ac, 0x43593c5dcda521f0);
    Entry5();
    CheckStep(4, 0x43593c5dcda521f0, 0xf0758513239c7e0d);
    Entry6();
    CheckStep(5, 0xf0758513239c7e0d, 0xa3a90925b2ab4903);
  }

  lemma NineDigits()
    ensures |Digits()| == 9 && Crc(0, Digits()[..9]) == 0xe9c6d914c4b8d9ca
  {
    hide *;
    DigitsAre();
    SixDigits();
    Entry7();
    CheckStep(6, 0xa3a90925b2ab4903, 0x47824d362431ad45);
    Entry8();
    CheckStep(7, 0x47824d362431ad45, 0x49ec20b315e86dc2);
    Entry9();
    CheckStep(8, 0x49ec20b315e86dc2, 0xe9c6d914c4b8d9ca);
  }

  lemma CrcNothing(s: seq<bv8>)
    ensures Crc(0, s[..0]) == 0
  {
  }

  /** The check value of the checksum, that of the digits. */
  lemma CheckValue()
    ensures Crc(0, [49, 50, 51, 52, 53, 54, 55, 56, 57]) == 0xe9c6d914c4b8d9ca
  {
    NineDigits();
    hide Crc;
    assert Digits()[..9] == [49, 50, 51, 52, 53, 54, 55, 56, 57];
  }
}
