/** The state checksum of src/lib/crc.c: a table-driven CRC over bytes, with no pre- or post-complement.
    Its partner is the bit-serial shift register with the reflected polynomial 0xEDB88320.
    The bit-vector operators sit behind small functions so that proofs about registers can hide them. */
module Crc {

  function Xor(x: bv32, y: bv32): bv32 { x ^ y }

  function Ext(b: bv8): bv32 { b as bv32 }

  function Low(x: bv32): bv8 { (x & 0xff) as bv8 }

  function High(x: bv32): bv32 { x >> 8 }

  /** One shift of the reflected register. */
  function Shift(c: bv32): bv32 {
    if c & 1 == 1 then (c >> 1) ^ 0xEDB88320 else c >> 1
  }

  function Shift4(c: bv32): bv32 { Shift(Shift(Shift(Shift(c)))) }

  function Shift8(c: bv32): bv32 { Shift4(Shift4(c)) }

  /** The register after one byte, bit by bit. */
  function ByteStep(c: bv32, b: bv8): bv32 { Shift8(Xor(c, Ext(b))) }

  /** The bit-serial CRC of s from register value c: the reference for Crc32. */
  function Serial(c: bv32, s: seq<bv8>): bv32
    decreases |s|
  {
    if s == [] then c else Serial(ByteStep(c, s[0]), s[1..])
  }

  // ---- the feedback table of the source, sixteen entries a row ----

  /** A row is its first entry xored into the entries of row 0. */
  ghost predicate RowFrom(row: seq<bv32>, first: bv32) {
    && |row| == 16
    && row[0] == Xor(first, Row0()[0]) && row[1] == Xor(first, Row0()[1])
    && row[2] == Xor(first, Row0()[2]) && row[3] == Xor(first, Row0()[3])
    && row[4] == Xor(first, Row0()[4]) && row[5] == Xor(first, Row0()[5])
    && row[6] == Xor(first, Row0()[6]) && row[7] == Xor(first, Row0()[7])
    && row[8] == Xor(first, Row0()[8]) && row[9] == Xor(first, Row0()[9])
    && row[10] == Xor(first, Row0()[10]) && row[11] == Xor(first, Row0()[11])
    && row[12] == Xor(first, Row0()[12]) && row[13] == Xor(first, Row0()[13])
    && row[14] == Xor(first, Row0()[14]) && row[15] == Xor(first, Row0()[15])
  }

  function Row0(): (r: seq<bv32>)
    ensures |r| == 16
  {
    [
      0x00000000, 0x77073096, 0xee0e612c, 0x990951ba,
      0x076dc419, 0x706af48f, 0xe963a535, 0x9e6495a3,
      0x0edb8832, 0x79dcb8a4, 0xe0d5e91e, 0x97d2d988,
      0x09b64c2b, 0x7eb17cbd, 0xe7b82d07, 0x90bf1d91
    ]
  }

  function Row1(): (r: seq<bv32>)
    ensures |r| == 16 && RowFrom(r, Shift8(0x10))
  {
    [
      0x1db71064, 0x6ab020f2, 0xf3b97148, 0x84be41de,
      0x1adad47d, 0x6ddde4eb, 0xf4d4b551, 0x83d385c7,
      0x136c9856, 0x646ba8c0, 0xfd62f97a, 0x8a65c9ec,
      0x14015c4f, 0x63066cd9, 0xfa0f3d63, 0x8d080df5
    ]
  }

  function Row2(): (r: seq<bv32>)
    ensures |r| == 16 && RowFrom(r, Shift8(0x20))
  {
    [
      0x3b6e20c8, 0x4c69105e, 0xd56041e4, 0xa2677172,
      0x3c03e4d1, 0x4b04d447, 0xd20d85fd, 0xa50ab56b,
      0x35b5a8fa, 0x42b2986c, 0xdbbbc9d6, 0xacbcf940,
      0x32d86ce3, 0x45df5c75, 0xdcd60dcf, 0xabd13d59
    ]
  }

  function Row3(): (r: seq<bv32>)
    ensures |r| == 16 && RowFrom(r, Shift8(0x30))
  {
    [
      0x26d930ac, 0x51de003a, 0xc8d75180, 0xbfd06116,
      0x21b4f4b5, 0x56b3c423, 0xcfba9599, 0xb8bda50f,
      0x2802b89e, 0x5f058808, 0xc60cd9b2, 0xb10be924,
      0x2f6f7c87, 0x58684c11, 0xc1611dab, 0xb6662d3d
    ]
  }

  function Row4(): (r: seq<bv32>)
    ensures |r| == 16 && RowFrom(r, Shift8(0x40))
  {
    [
      0x76dc4190, 0x01db7106, 0x98d220bc, 0xefd5102a,
      0x71b18589, 0x06b6b51f, 0x9fbfe4a5, 0xe8b8d433,
      0x7807c9a2, 0x0f00f934, 0x9609a88e, 0xe10e9818,
      0x7f6a0dbb, 0x086d3d2d, 0x91646c97, 0xe6635c01
    ]
  }

  function Row5(): (r: seq<bv32>)
    ensures |r| == 16 && RowFrom(r, Shift8(0x50))
  {
    [
      0x6b6b51f4, 0x1c6c6162, 0x856530d8, 0xf262004e,
      0x6c0695ed, 0x1b01a57b, 0x8208f4c1, 0xf50fc457,
      0x65b0d9c6, 0x12b7e950, 0x8bbeb8ea, 0xfcb9887c,
      0x62dd1ddf, 0x15da2d49, 0x8cd37cf3, 0xfbd44c65
    ]
  }

  function Row6(): (r: seq<bv32>)
    ensures |r| == 16 && RowFrom(r, Shift8(0x60))
  {
    [
      0x4db26158, 0x3ab551ce, 0xa3bc0074, 0xd4bb30e2,
      0x4adfa541, 0x3dd895d7, 0xa4d1c46d, 0xd3d6f4fb,
      0x4369e96a, 0x346ed9fc, 0xad678846, 0xda60b8d0,
      0x44042d73, 0x33031de5, 0xaa0a4c5f, 0xdd0d7cc9
    ]
  }

  function Row7(): (r: seq<bv32>)
    ensures |r| == 16 && RowFrom(r, Shift8(0x70))
  {
    [
      0x5005713c, 0x270241aa, 0xbe0b1010, 0xc90c2086,
      0x5768b525, 0x206f85b3, 0xb966d409, 0xce61e49f,
      0x5edef90e, 0x29d9c998, 0xb0d09822, 0xc7d7a8b4,
      0x59b33d17, 0x2eb40d81, 0xb7bd5c3b, 0xc0ba6cad
    ]
  }

  function Row8(): (r: seq<bv32>)
    ensures |r| == 16 && RowFrom(r, Shift8(0x80))
  {
    [
      0xedb88320, 0x9abfb3b6, 0x03b6e20c, 0x74b1d29a,
      0xead54739, 0x9dd277af, 0x04db2615, 0x73dc1683,
      0xe3630b12, 0x94643b84, 0x0d6d6a3e, 0x7a6a5aa8,
      0xe40ecf0b, 0x9309ff9d, 0x0a00ae27, 0x7d079eb1
    ]
  }

  function Row9(): (r: seq<bv32>)
    ensures |r| == 16 && RowFrom(r, Shift8(0x90))
  {
    [
      0xf00f9344, 0x8708a3d2, 0x1e01f268, 0x6906c2fe,
      0xf762575d, 0x806567cb, 0x196c3671, 0x6e6b06e7,
      0xfed41b76, 0x89d32be0, 0x10da7a5a, 0x67dd4acc,
      0xf9b9df6f, 0x8ebeeff9, 0x17b7be43, 0x60b08ed5
    ]
  }

  function RowA(): (r: seq<bv32>)
    ensures |r| == 16 && RowFrom(r, Shift8(0xA0))
  {
    [
      0xd6d6a3e8, 0xa1d1937e, 0x38d8c2c4, 0x4fdff252,
      0xd1bb67f1, 0xa6bc5767, 0x3fb506dd, 0x48b2364b,
      0xd80d2bda, 0xaf0a1b4c, 0x36034af6, 0x41047a60,
      0xdf60efc3, 0xa867df55, 0x316e8eef, 0x4669be79
    ]
  }

  function RowB(): (r: seq<bv32>)
    ensures |r| == 16 && RowFrom(r, Shift8(0xB0))
  {
    [
      0xcb61b38c, 0xbc66831a, 0x256fd2a0, 0x5268e236,
      0xcc0c7795, 0xbb0b4703, 0x220216b9, 0x5505262f,
      0xc5ba3bbe, 0xb2bd0b28, 0x2bb45a92, 0x5cb36a04,
      0xc2d7ffa7, 0xb5d0cf31, 0x2cd99e8b, 0x5bdeae1d
    ]
  }

  function RowC(): (r: seq<bv32>)
    ensures |r| == 16 && RowFrom(r, Shift8(0xC0))
  {
    [
      0x9b64c2b0, 0xec63f226, 0x756aa39c, 0x026d930a,
      0x9c0906a9, 0xeb0e363f, 0x72076785, 0x05005713,
      0x95bf4a82, 0xe2b87a14, 0x7bb12bae, 0x0cb61b38,
      0x92d28e9b, 0xe5d5be0d, 0x7cdcefb7, 0x0bdbdf21
    ]
  }

  function RowD(): (r: seq<bv32>)
    ensures |r| == 16 && RowFrom(r, Shift8(0xD0))
  {
    [
      0x86d3d2d4, 0xf1d4e242, 0x68ddb3f8, 0x1fda836e,
      0x81be16cd, 0xf6b9265b, 0x6fb077e1, 0x18b74777,
      0x88085ae6, 0xff0f6a70, 0x66063bca, 0x11010b5c,
      0x8f659eff, 0xf862ae69, 0x616bffd3, 0x166ccf45
    ]
  }

  function RowE(): (r: seq<bv32>)
    ensures |r| == 16 && RowFrom(r, Shift8(0xE0))
  {
    [
      0xa00ae278, 0xd70dd2ee, 0x4e048354, 0x3903b3c2,
      0xa7672661, 0xd06016f7, 0x4969474d, 0x3e6e77db,
      0xaed16a4a, 0xd9d65adc, 0x40df0b66, 0x37d83bf0,
      0xa9bcae53, 0xdebb9ec5, 0x47b2cf7f, 0x30b5ffe9
    ]
  }

  function RowF(): (r: seq<bv32>)
    ensures |r| == 16 && RowFrom(r, Shift8(0xF0))
  {
    [
      0xbdbdf21c, 0xcabac28a, 0x53b39330, 0x24b4a3a6,
      0xbad03605, 0xcdd70693, 0x54de5729, 0x23d967bf,
      0xb3667a2e, 0xc4614ab8, 0x5d681b02, 0x2a6f2b94,
      0xb40bbe37, 0xc30c8ea1, 0x5a05df1b, 0x2d02ef8d
    ]
  }

  function Row(h: bv8): (r: seq<bv32>)
    requires h < 16
    ensures |r| == 16
  {
    match h
    case 0 => Row0()
    case 1 => Row1()
    case 2 => Row2()
    case 3 => Row3()
    case 4 => Row4()
    case 5 => Row5()
    case 6 => Row6()
    case 7 => Row7()
    case 8 => Row8()
    case 9 => Row9()
    case 10 => RowA()
    case 11 => RowB()
    case 12 => RowC()
    case 13 => RowD()
    case 14 => RowE()
    case _ => RowF()
  }

  /** Entry i of the source's table of 256 feedback terms. */
  function Entry(i: bv8): bv32 {
    hide *;
    Row(i >> 4)[(i & 15) as int]
  }

  // ---- the shift register is linear, injective, and plain shifting on cleared low bits ----

  lemma XorShift(x: bv32, y: bv32)
    ensures (x ^ y) >> 1 == (x >> 1) ^ (y >> 1)
    ensures (x ^ y) & 1 == (x & 1) ^ (y & 1)
    ensures x & 1 == 0 || x & 1 == 1
  {
  }

  lemma XorRing(x: bv32, y: bv32, p: bv32)
    ensures (x ^ p) ^ y == (x ^ y) ^ p && x ^ (y ^ p) == (x ^ y) ^ p && (x ^ p) ^ (y ^ p) == x ^ y
  {
  }

  lemma XorAssoc(x: bv32, y: bv32, z: bv32)
    ensures Xor(Xor(x, y), z) == Xor(x, Xor(y, z))
  {
  }

  lemma ShiftLinear(x: bv32, y: bv32)
    ensures Shift(Xor(x, y)) == Xor(Shift(x), Shift(y))
  {
    XorShift(x, y);
    XorShift(y, x);
    XorRing(x >> 1, y >> 1, 0xEDB88320);
  }

  lemma Shift4Linear(x: bv32, y: bv32)
    ensures Shift4(Xor(x, y)) == Xor(Shift4(x), Shift4(y))
  {
    hide Shift, Xor;
    ShiftLinear(x, y);
    ShiftLinear(Shift(x), Shift(y));
    ShiftLinear(Shift(Shift(x)), Shift(Shift(y)));
    ShiftLinear(Shift(Shift(Shift(x))), Shift(Shift(Shift(y))));
  }

  lemma Shift8Linear(x: bv32, y: bv32)
    ensures Shift8(Xor(x, y)) == Xor(Shift8(x), Shift8(y))
  {
    hide Shift4, Xor;
    Shift4Linear(x, y);
    Shift4Linear(Shift4(x), Shift4(y));
  }

  lemma ShiftInjective(x: bv32, y: bv32)
    requires Shift(x) == Shift(y)
    ensures x == y
  {
  }

  lemma Shift4Injective(x: bv32, y: bv32)
    requires Shift4(x) == Shift4(y)
    ensures x == y
  {
    hide Shift;
    ShiftInjective(Shift(Shift(Shift(x))), Shift(Shift(Shift(y))));
    ShiftInjective(Shift(Shift(x)), Shift(Shift(y)));
    ShiftInjective(Shift(x), Shift(y));
    ShiftInjective(x, y);
  }

  lemma Shift8Injective(x: bv32, y: bv32)
    requires Shift8(x) == Shift8(y)
    ensures x == y
  {
    hide Shift4;
    Shift4Injective(Shift4(x), Shift4(y));
    Shift4Injective(x, y);
  }

  function Half(x: bv32): bv32 { x >> 1 }

  ghost predicate Even(x: bv32) { x & 1 == 0 }

  lemma ShiftEven(x: bv32)
    requires Even(x)
    ensures Shift(x) == Half(x)
  {
  }

  lemma LowNibble(x: bv32)
    requires x & 0xf == 0
    ensures Even(x) && Even(Half(x)) && Even(Half(Half(x))) && Even(Half(Half(Half(x))))
    ensures Half(Half(Half(Half(x)))) == x >> 4
  {
  }

  lemma Shift4Cleared(x: bv32)
    requires x & 0xf == 0
    ensures Shift4(x) == x >> 4
  {
    hide Shift, Half, Even;
    LowNibble(x);
    ShiftEven(x);
    ShiftEven(Half(x));
    ShiftEven(Half(Half(x)));
    ShiftEven(Half(Half(Half(x))));
  }

  lemma LowByte(x: bv32)
    requires Low(x) == 0
    ensures x & 0xf == 0 && (x >> 4) & 0xf == 0 && (x >> 4) >> 4 == High(x)
  {
  }

  lemma Shift8Cleared(x: bv32)
    requires Low(x) == 0
    ensures Shift8(x) == High(x)
  {
    hide Shift4, Low, High;
    LowByte(x);
    Shift4Cleared(x);
    Shift4Cleared(x >> 4);
  }

  // ---- the table holds the eight-shift results ----

  lemma BasisShifts()
    ensures Shift8(0) == 0 && Shift8(1) == 0x77073096 && Shift8(2) == 0xee0e612c
    ensures Shift8(4) == 0x076dc419 && Shift8(8) == 0x0edb8832
  {
  }

  lemma Row0Basis()
    ensures Shift8(0) == Row0()[0] && Shift8(1) == Row0()[1] && Shift8(2) == Row0()[2]
    ensures Shift8(4) == Row0()[4] && Shift8(8) == Row0()[8]
  {
    hide Shift8;
    BasisShifts();
  }

  /** Row 0 from its five basis entries, by linearity. */
  lemma Row0Sums()
    ensures Shift8(3) == Row0()[3] && Shift8(5) == Row0()[5] && Shift8(6) == Row0()[6]
    ensures Shift8(7) == Row0()[7] && Shift8(9) == Row0()[9] && Shift8(10) == Row0()[10]
    ensures Shift8(11) == Row0()[11] && Shift8(12) == Row0()[12] && Shift8(13) == Row0()[13]
    ensures Shift8(14) == Row0()[14] && Shift8(15) == Row0()[15]
  {
    hide Shift8;
    Row0Basis();
    Shift8Linear(1, 2);
    Shift8Linear(4, 1);
    Shift8Linear(4, 2);
    Shift8Linear(4, 3);
    Shift8Linear(8, 1);
    Shift8Linear(8, 2);
    Shift8Linear(8, 3);
    Shift8Linear(8, 4);
    Shift8Linear(8, 5);
    Shift8Linear(8, 6);
    Shift8Linear(8, 7);
  }

  lemma Row0Entry(k: bv8)
    requires k < 16
    ensures Shift8(Ext(k)) == Row0()[k as int]
  {
    hide Shift8, Row0;
    Row0Basis();
    Row0Sums();
  }

  lemma RowEntry(row: seq<bv32>, first: bv32, k: bv8)
    requires RowFrom(row, first) && k < 16
    ensures row[k as int] == Xor(first, Row0()[k as int])
  {
    hide Row0, Xor;
  }

  lemma Row0Start()
    ensures RowFrom(Row0(), Shift8(0))
  {
    hide Shift8, Row0;
    BasisShifts();
  }

  lemma RowStart(h: bv8)
    requires h < 16
    ensures RowFrom(Row(h), Shift8((h as bv32) << 4))
  {
    hide Shift8, RowFrom, Row0, Row1, Row2, Row3, Row4, Row5, Row6, Row7, Row8, Row9, RowA, RowB, RowC, RowD, RowE, RowF;
    Row0Start();
    match h {
      case 0 => assert Row(0) == Row0();
      case 1 => assert Row(1) == Row1();
      case 2 => assert Row(2) == Row2();
      case 3 => assert Row(3) == Row3();
      case 4 => assert Row(4) == Row4();
      case 5 => assert Row(5) == Row5();
      case 6 => assert Row(6) == Row6();
      case 7 => assert Row(7) == Row7();
      case 8 => assert Row(8) == Row8();
      case 9 => assert Row(9) == Row9();
      case 10 => assert Row(10) == RowA();
      case 11 => assert Row(11) == RowB();
      case 12 => assert Row(12) == RowC();
      case 13 => assert Row(13) == RowD();
      case 14 => assert Row(14) == RowE();
      case _ => assert Row(15) == RowF();
    }
  }

  lemma Nibbles(i: bv8)
    ensures i >> 4 < 16 && i & 15 < 16
    ensures Ext(i) == Xor(((i >> 4) as bv32) << 4, Ext(i & 15))
  {
  }

  /** Every table entry is eight shifts of its index. */
  lemma EntryIsEightShifts(i: bv8)
    ensures Entry(i) == Shift8(Ext(i))
  {
    hide Shift8, Row, Row0, Xor, Ext, RowFrom;
    Nibbles(i);
    var hi, lo := ((i >> 4) as bv32) << 4, i & 15;
    RowStart(i >> 4);
    RowEntry(Row(i >> 4), Shift8(hi), lo);
    Row0Entry(lo);
    Shift8Linear(hi, Ext(lo));
  }

  function Upper(x: bv32): bv32 { x & 0xffffff00 }

  lemma SplitLowByte(x: bv32)
    ensures x == Xor(Ext(Low(x)), Upper(x)) && Low(Upper(x)) == 0 && High(Upper(x)) == High(x)
  {
  }

  lemma XorByteHigh(c: bv32, b: bv8)
    ensures High(Xor(c, Ext(b))) == High(c)
  {
  }

  /** One table lookup is one byte of the shift register. */
  lemma LookupIsByteStep(c: bv32, b: bv8)
    ensures Xor(Entry(Low(Xor(c, Ext(b)))), High(c)) == ByteStep(c, b)
  {
    hide Shift8, Entry, Xor, Ext, Low, High, Upper;
    var x := Xor(c, Ext(b));
    SplitLowByte(x);
    XorByteHigh(c, b);
    EntryIsEightShifts(Low(x));
    Shift8Linear(Ext(Low(x)), Upper(x));
    Shift8Cleared(Upper(x));
  }

  /** The table-driven loop computes the bit-serial CRC from every start value over every buffer. */
  method Crc32(start: bv32, buf: seq<bv8>) returns (crc: bv32)
    ensures crc == Serial(start, buf)
  {
    hide ByteStep, Entry, Xor, Ext, Low, High;
    crc := start;
    var i := 0;
    while i < |buf|
      invariant 0 <= i <= |buf|
      invariant Serial(crc, buf[i..]) == Serial(start, buf)
    {
      LookupIsByteStep(crc, buf[i]);
      assert buf[i..][1..] == buf[i + 1..];
      crc := Xor(Entry(Low(Xor(crc, Ext(buf[i])))), High(crc));
      i := i + 1;
    }
    assert buf[i..] == [];
  }

  // ---- properties of the CRC of whole buffers ----

  /** The CRC of a concatenation continues from the CRC of its front. */
  lemma {:induction false} SerialConcat(c: bv32, s: seq<bv8>, t: seq<bv8>)
    ensures Serial(c, s + t) == Serial(Serial(c, s), t)
    decreases |s|
  {
    hide ByteStep;
    if s == [] {
      assert s + t == t;
    } else {
      assert (s + t)[1..] == s[1..] + t;
      SerialConcat(ByteStep(c, s[0]), s[1..], t);
    }
  }

  function XorBytes(s: seq<bv8>, t: seq<bv8>): (r: seq<bv8>)
    requires |s| == |t|
    ensures |r| == |s| && forall i | 0 <= i < |s| :: r[i] == s[i] ^ t[i]
  {
    if s == [] then [] else [s[0] ^ t[0]] + XorBytes(s[1..], t[1..])
  }

  lemma XorExchange(c: bv32, d: bv32, a: bv8, b: bv8)
    ensures Xor(Xor(c, d), Ext(a ^ b)) == Xor(Xor(c, Ext(a)), Xor(d, Ext(b)))
  {
  }

  /** The CRC is linear over xor of registers and of equally long inputs. */
  lemma {:induction false} SerialLinear(c: bv32, d: bv32, s: seq<bv8>, t: seq<bv8>)
    requires |s| == |t|
    ensures Serial(Xor(c, d), XorBytes(s, t)) == Xor(Serial(c, s), Serial(d, t))
    decreases |s|
  {
    hide Xor, Ext, Shift8;
    if s != [] {
      XorExchange(c, d, s[0], t[0]);
      Shift8Linear(Xor(c, Ext(s[0])), Xor(d, Ext(t[0])));
      assert XorBytes(s, t)[1..] == XorBytes(s[1..], t[1..]);
      SerialLinear(ByteStep(c, s[0]), ByteStep(d, t[0]), s[1..], t[1..]);
    }
  }

  lemma XorCancel(x: bv32, y: bv32, b: bv32)
    requires Xor(x, b) == Xor(y, b) || Xor(b, x) == Xor(b, y)
    ensures x == y
  {
  }

  /** Feeding the same bytes never merges two register values. */
  lemma {:induction false} SerialInjective(c: bv32, d: bv32, s: seq<bv8>)
    requires Serial(c, s) == Serial(d, s)
    ensures c == d
    decreases |s|
  {
    hide Xor, Ext, Shift8;
    if s != [] {
      SerialInjective(ByteStep(c, s[0]), ByteStep(d, s[0]), s[1..]);
      Shift8Injective(Xor(c, Ext(s[0])), Xor(d, Ext(s[0])));
      XorCancel(c, d, Ext(s[0]));
    }
  }

  /** Four bytes as a little-endian word. */
  function Word(b0: bv8, b1: bv8, b2: bv8, b3: bv8): bv32 {
    (b0 as bv32) | ((b1 as bv32) << 8) | ((b2 as bv32) << 16) | ((b3 as bv32) << 24)
  }

  lemma WordInjective(a0: bv8, a1: bv8, a2: bv8, a3: bv8, b0: bv8, b1: bv8, b2: bv8, b3: bv8)
    requires Word(a0, a1, a2, a3) == Word(b0, b1, b2, b3)
    ensures a0 == b0 && a1 == b1 && a2 == b2 && a3 == b3
  {
  }

  function Up(x: bv32): bv32 { x << 8 }

  lemma WordBytes(b0: bv8, b1: bv8, b2: bv8, b3: bv8)
    ensures Word(b0, b1, b2, b3) == Xor(Ext(b0), Up(Xor(Ext(b1), Up(Xor(Ext(b2), Up(Ext(b3)))))))
  {
  }

  lemma UpCleared(x: bv32)
    ensures Low(Up(x)) == 0
  {
  }

  ghost predicate Fits(x: bv32) { x <= 0xffffff }

  lemma HighUp(x: bv32)
    requires Fits(x)
    ensures High(Up(x)) == x
  {
  }

  lemma WordsFit(b1: bv8, b2: bv8, b3: bv8)
    ensures Fits(Ext(b3)) && Fits(Xor(Ext(b2), Up(Ext(b3))))
    ensures Fits(Xor(Ext(b1), Up(Xor(Ext(b2), Up(Ext(b3))))))
  {
  }

  lemma PeelByte(c: bv32, b: bv8, w: bv32)
    requires Fits(w)
    ensures Shift8(Xor(c, Xor(Ext(b), Up(w)))) == Xor(ByteStep(c, b), w)
  {
    hide Shift8, Xor, Ext, Up, Low, High, Fits;
    HighUp(w);
    XorAssoc(c, Ext(b), Up(w));
    Shift8Linear(Xor(c, Ext(b)), Up(w));
    UpCleared(w);
    Shift8Cleared(Up(w));
  }

  lemma Feed4(c: bv32, s: seq<bv8>)
    requires |s| == 4
    ensures Serial(c, s) == ByteStep(ByteStep(ByteStep(ByteStep(c, s[0]), s[1]), s[2]), s[3])
  {
    hide ByteStep;
    var s1, s2, s3 := s[1..], s[1..][1..], s[1..][1..][1..];
    assert s1[0] == s[1] && s2[0] == s[2] && s3[0] == s[3] && s3[1..] == [];
    var c1 := ByteStep(c, s[0]);
    var c2 := ByteStep(c1, s[1]);
    var c3 := ByteStep(c2, s[2]);
    assert Serial(c3, s3) == ByteStep(c3, s[3]);
    assert Serial(c2, s2) == Serial(c3, s3);
    assert Serial(c1, s1) == Serial(c2, s2);
  }

  /** Four bytes reach the register as one word xored in before four rounds of eight shifts. */
  lemma FourBytesAsWord(c: bv32, s: seq<bv8>)
    requires |s| == 4
    ensures Serial(c, s) == Shift8(Shift8(Shift8(Shift8(Xor(c, Word(s[0], s[1], s[2], s[3]))))))
  {
    hide Shift8, Xor, Ext, Up, Word, Serial, Fits;
    var w3 := Ext(s[3]);
    var w2 := Xor(Ext(s[2]), Up(w3));
    var w1 := Xor(Ext(s[1]), Up(w2));
    WordsFit(s[1], s[2], s[3]);
    WordBytes(s[0], s[1], s[2], s[3]);
    Feed4(c, s);
    var c1 := ByteStep(c, s[0]);
    var c2 := ByteStep(c1, s[1]);
    PeelByte(c, s[0], w1);
    PeelByte(c1, s[1], w2);
    PeelByte(c2, s[2], w3);
  }

  /** Two buffers that differ only inside one window of four bytes never share a CRC. */
  lemma BurstIsSeen(c: bv32, before: seq<bv8>, w: seq<bv8>, w': seq<bv8>, after: seq<bv8>)
    requires |w| == 4 && |w'| == 4
    requires Serial(c, before + w + after) == Serial(c, before + w' + after)
    ensures w == w'
  {
    hide Shift8, Xor, Word, Serial;
    var d := Serial(c, before);
    SerialConcat(c, before, w);
    SerialConcat(c, before, w');
    SerialConcat(c, before + w, after);
    SerialConcat(c, before + w', after);
    SerialInjective(Serial(d, w), Serial(d, w'), after);
    FourBytesAsWord(d, w);
    FourBytesAsWord(d, w');
    var x, y := Word(w[0], w[1], w[2], w[3]), Word(w'[0], w'[1], w'[2], w'[3]);
    Shift8Injective(Shift8(Shift8(Shift8(Xor(d, x)))), Shift8(Shift8(Shift8(Xor(d, y)))));
    Shift8Injective(Shift8(Shift8(Xor(d, x))), Shift8(Shift8(Xor(d, y))));
    Shift8Injective(Shift8(Xor(d, x)), Shift8(Xor(d, y)));
    Shift8Injective(Xor(d, x), Xor(d, y));
    XorCancel(x, y, d);
    WordInjective(w[0], w[1], w[2], w[3], w'[0], w'[1], w'[2], w'[3]);
  }
}
