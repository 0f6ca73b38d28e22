/** The 512-byte boot state of include/boot/pb_state_blob.h and its check in src/boot/ab_state.c. */
module StateBlob {
  import Crc

  newtype u32 = n: int | 0 <= n < 0x1_0000_0000

  const MAGIC: u32 := 0x026d4a65
  const BLOB_BYTES := 512
  const CRC_AT := 508

  datatype Fields = Fields(magic: u32, enable: u32, verified: u32, remaining: u32, error: u32,
                           rz: seq<bv8>, regs: seq<u32>, crc: bv32)

  /** The packed struct: 472 reserved bytes and four board registers. */
  type BootState = s: Fields | |s.rz| == 472 && |s.regs| == 4 witness Cleared()

  function Cleared(): (r: Fields)
    ensures |r.rz| == 472 && |r.regs| == 4
  {
    Fields(0, 0, 0, 0, 0, seq(472, _ => 0), [0, 0, 0, 0], 0)
  }

  // ---- little-endian layout ----

  function FromByte(b: bv8): (n: int)
    ensures 0 <= n < 256
  {
    b as int
  }

  lemma FromByteNext(b: bv8)
    requires b != 255
    ensures FromByte(b + 1) == FromByte(b) + 1
  {
  }

  lemma FromByteInjective(a: bv8, b: bv8)
    requires FromByte(a) == FromByte(b)
    ensures a == b
  {
    assert (a as int) as bv8 == a && (b as int) as bv8 == b;
  }

  /** The byte with value n. */
  function ToByte(n: int): (b: bv8)
    requires 0 <= n < 256
    ensures FromByte(b) == n
  {
    if n == 0 then 0 else
      var p := ToByte(n - 1);
      FromByteNext(p);
      p + 1
  }

  function Le32(n: u32): (b: seq<bv8>)
    ensures |b| == 4
  {
    var i := n as int;
    [ToByte(i % 256), ToByte(i / 256 % 256), ToByte(i / 65536 % 256), ToByte(i / 16777216)]
  }

  function FromLe32(b: seq<bv8>): u32
    requires |b| == 4
  {
    (FromByte(b[0]) + 256 * FromByte(b[1]) + 65536 * FromByte(b[2]) + 16777216 * FromByte(b[3])) as u32
  }

  lemma Digits(i: int)
    requires 0 <= i < 0x1_0000_0000
    ensures i == i % 256 + 256 * (i / 256 % 256) + 65536 * (i / 65536 % 256) + 16777216 * (i / 16777216)
  {
  }

  lemma DigitsUnique(i: int, d0: int, d1: int, d2: int, d3: int)
    requires 0 <= d0 < 256 && 0 <= d1 < 256 && 0 <= d2 < 256 && 0 <= d3 < 256
    requires i == d0 + 256 * d1 + 65536 * d2 + 16777216 * d3
    ensures i % 256 == d0 && i / 256 % 256 == d1 && i / 65536 % 256 == d2 && i / 16777216 == d3
  {
    assert i / 256 == d1 + 256 * d2 + 65536 * d3;
    assert i / 65536 == d2 + 256 * d3;
  }

  lemma Le32RoundTrip(n: u32)
    ensures FromLe32(Le32(n)) == n
  {
    hide ToByte, FromByte;
    var i := n as int;
    Digits(i);
  }

  lemma FromByteInverse(b: bv8)
    ensures ToByte(FromByte(b)) == b
  {
    FromByteInjective(ToByte(FromByte(b)), b);
  }

  lemma FromLe32RoundTrip(b: seq<bv8>)
    requires |b| == 4
    ensures Le32(FromLe32(b)) == b
  {
    hide ToByte, FromByte;
    DigitsUnique(FromLe32(b) as int, FromByte(b[0]), FromByte(b[1]), FromByte(b[2]), FromByte(b[3]));
    FromByteInverse(b[0]);
    FromByteInverse(b[1]);
    FromByteInverse(b[2]);
    FromByteInverse(b[3]);
  }

  function CrcBytes(c: bv32): (b: seq<bv8>)
    ensures |b| == 4
  {
    [(c & 0xff) as bv8, ((c >> 8) & 0xff) as bv8, ((c >> 16) & 0xff) as bv8, ((c >> 24) & 0xff) as bv8]
  }

  function CrcField(b: seq<bv8>): bv32
    requires |b| == 4
  {
    Crc.Word(b[0], b[1], b[2], b[3])
  }

  lemma CrcFieldRoundTrip(c: bv32)
    ensures CrcField(CrcBytes(c)) == c
  {
  }

  lemma CrcBytesRoundTrip(b: seq<bv8>)
    requires |b| == 4
    ensures CrcBytes(CrcField(b)) == b
  {
    assert CrcBytes(CrcField(b))[0] == b[0];
    assert CrcBytes(CrcField(b))[1] == b[1];
    assert CrcBytes(CrcField(b))[2] == b[2];
    assert CrcBytes(CrcField(b))[3] == b[3];
  }

  /** Everything before the checksum field. */
  function Front(s: BootState): (b: seq<bv8>)
    ensures |b| == CRC_AT
  {
    Le32(s.magic) + Le32(s.enable) + Le32(s.verified) + Le32(s.remaining) + Le32(s.error) + s.rz
    + (Le32(s.regs[0]) + Le32(s.regs[1]) + Le32(s.regs[2]) + Le32(s.regs[3]))
  }

  function Encode(s: BootState): (b: seq<bv8>)
    ensures |b| == BLOB_BYTES
  {
    Front(s) + CrcBytes(s.crc)
  }

  function Decode(b: seq<bv8>): BootState
    requires |b| == BLOB_BYTES
  {
    Fields(FromLe32(b[0..4]), FromLe32(b[4..8]), FromLe32(b[8..12]), FromLe32(b[12..16]), FromLe32(b[16..20]),
           b[20..492],
           [FromLe32(b[492..496]), FromLe32(b[496..500]), FromLe32(b[500..504]), FromLe32(b[504..508])],
           CrcField(b[508..512]))
  }

  /** Reading back what was written gives the same state ... */
  lemma DecodeEncode(s: BootState)
    ensures Decode(Encode(s)) == s
  {
    hide Le32, FromLe32, CrcBytes, CrcField;
    var b := Encode(s);
    Le32RoundTrip(s.magic);
    Le32RoundTrip(s.enable);
    Le32RoundTrip(s.verified);
    Le32RoundTrip(s.remaining);
    Le32RoundTrip(s.error);
    Le32RoundTrip(s.regs[0]);
    Le32RoundTrip(s.regs[1]);
    Le32RoundTrip(s.regs[2]);
    Le32RoundTrip(s.regs[3]);
    CrcFieldRoundTrip(s.crc);
    assert b[0..4] == Le32(s.magic) && b[4..8] == Le32(s.enable) && b[8..12] == Le32(s.verified);
    assert b[12..16] == Le32(s.remaining) && b[16..20] == Le32(s.error) && b[20..492] == s.rz;
    assert b[492..496] == Le32(s.regs[0]) && b[496..500] == Le32(s.regs[1]);
    assert b[500..504] == Le32(s.regs[2]) && b[504..508] == Le32(s.regs[3]);
    assert b[508..512] == CrcBytes(s.crc);
  }

  /** ... and no byte of a blob is outside the fields. */
  lemma EncodeDecode(b: seq<bv8>)
    requires |b| == BLOB_BYTES
    ensures Encode(Decode(b)) == b
  {
    hide Le32, FromLe32, CrcBytes, CrcField;
    FromLe32RoundTrip(b[0..4]);
    FromLe32RoundTrip(b[4..8]);
    FromLe32RoundTrip(b[8..12]);
    FromLe32RoundTrip(b[12..16]);
    FromLe32RoundTrip(b[16..20]);
    FromLe32RoundTrip(b[492..496]);
    FromLe32RoundTrip(b[496..500]);
    FromLe32RoundTrip(b[500..504]);
    FromLe32RoundTrip(b[504..508]);
    CrcBytesRoundTrip(b[508..512]);
    assert b == b[0..4] + b[4..8] + b[8..12] + b[12..16] + b[16..20] + b[20..492]
             + (b[492..496] + b[496..500] + b[500..504] + b[504..508]) + b[508..512];
  }

  /** The little-endian word at an offset of a blob. */
  function WordAt(b: seq<bv8>, at: nat): int
    requires at + 4 <= |b|
  {
    FromByte(b[at]) + 256 * FromByte(b[at + 1]) + 65536 * FromByte(b[at + 2]) + 16777216 * FromByte(b[at + 3])
  }

  lemma WordOf(b: seq<bv8>, at: nat, n: u32)
    requires at + 4 <= |b| && b[at..at + 4] == Le32(n)
    ensures WordAt(b, at) == n as int
  {
    hide Le32, FromByte;
    Le32RoundTrip(n);
    var w := b[at..at + 4];
    assert w[0] == b[at] && w[1] == b[at + 1] && w[2] == b[at + 2] && w[3] == b[at + 3];
  }

  /** Where the fields of the packed struct are. */
  lemma Layout(s: BootState)
    ensures var b := Encode(s);
            && WordAt(b, 0) == s.magic as int && WordAt(b, 4) == s.enable as int && WordAt(b, 8) == s.verified as int
            && WordAt(b, 12) == s.remaining as int && WordAt(b, 16) == s.error as int && b[20..492] == s.rz
            && (forall j | 0 <= j < 4 :: WordAt(b, 492 + 4 * j) == s.regs[j] as int) && b[508..] == CrcBytes(s.crc)
  {
    hide Le32, WordAt;
    var b := Encode(s);
    assert b[0..4] == Le32(s.magic) && b[4..8] == Le32(s.enable) && b[8..12] == Le32(s.verified);
    assert b[12..16] == Le32(s.remaining) && b[16..20] == Le32(s.error);
    assert b[492..496] == Le32(s.regs[0]) && b[496..500] == Le32(s.regs[1]);
    assert b[500..504] == Le32(s.regs[2]) && b[504..508] == Le32(s.regs[3]);
    WordOf(b, 0, s.magic);
    WordOf(b, 4, s.enable);
    WordOf(b, 8, s.verified);
    WordOf(b, 12, s.remaining);
    WordOf(b, 16, s.error);
    WordOf(b, 492, s.regs[0]);
    WordOf(b, 496, s.regs[1]);
    WordOf(b, 500, s.regs[2]);
    WordOf(b, 504, s.regs[3]);
  }

  // ---- the validity check ----

  const ZERO_CRC: seq<bv8> := [0, 0, 0, 0]

  /** The checksum the source stores: over the struct with its own crc field cleared. */
  function Checksum(s: BootState): bv32 {
    Crc.Serial(0, Front(s) + ZERO_CRC)
  }

  predicate Valid(s: BootState) {
    s.magic == MAGIC && s.crc == Checksum(s)
  }

  function Seal(s: BootState): (r: BootState)
    ensures s.magic == MAGIC ==> Valid(r)
    ensures Unsealed(r) == Unsealed(s)
  {
    s.(crc := Checksum(s))
  }

  function Unsealed(s: BootState): BootState {
    s.(crc := 0)
  }

  lemma SealOfUnsealed(s: BootState)
    requires Valid(s)
    ensures Seal(Unsealed(s)) == s
  {
  }

  lemma {:induction false} ZerosFromZero(s: seq<bv8>)
    requires forall i | 0 <= i < |s| :: s[i] == 0
    ensures Crc.Serial(0, s) == 0
  {
    if s != [] {
      assert Crc.ByteStep(0, 0) == 0;
      ZerosFromZero(s[1..]);
    }
  }

  /** The register starts at zero and is not complemented: cleared memory has its own checksum, and is refused for its
      magic alone. */
  lemma ClearedChecksum()
    ensures Checksum(Cleared()) == 0 == Cleared().crc && !Valid(Cleared())
  {
    var z: u32 := 0;
    assert Le32(z) == [0, 0, 0, 0];
    ZerosFromZero(Front(Cleared()) + ZERO_CRC);
  }

  lemma ClearedCrcBytes(s: BootState)
    requires s.crc == 0
    ensures Encode(s) == Front(s) + ZERO_CRC
  {
    assert CrcBytes(0) == ZERO_CRC;
  }

  lemma FrontIgnoresCrc(s: BootState)
    ensures Front(Unsealed(s)) == Front(s)
  {
  }

  /** validate(): the verdict, and the struct it leaves behind with the crc field cleared. */
  method Validate(s: BootState) returns (ok: bool, left: BootState)
    ensures ok == Valid(s)
    ensures left == Unsealed(s)
  {
    hide Encode, Front;
    var crc := s.crc;
    left := s.(crc := 0);
    ClearedCrcBytes(left);
    FrontIgnoresCrc(s);
    if left.magic != MAGIC {
      return false, left;
    }
    var actual := Crc.Crc32(0, Encode(left));
    ok := crc == actual;
  }

  /** The blobs a and b agree outside the n bytes at k. */
  ghost predicate AgreeOutside(a: seq<bv8>, b: seq<bv8>, k: nat, n: nat)
    requires k + n <= |a| == |b|
  {
    a[..k] == b[..k] && a[k + n..] == b[k + n..]
  }

  lemma FrontOfBlob(b: seq<bv8>)
    requires |b| == BLOB_BYTES
    ensures Front(Decode(b)) == b[..CRC_AT]
  {
    hide Front, Decode;
    EncodeDecode(b);
    assert Encode(Decode(b))[..CRC_AT] == Front(Decode(b));
  }

  /** Burst detection: two accepted blobs that agree outside four consecutive bytes before the crc field,
      or outside the crc field itself, are the same blob. */
  lemma BurstRejected(a: seq<bv8>, b: seq<bv8>, k: nat)
    requires |a| == |b| == BLOB_BYTES
    requires Valid(Decode(a)) && Valid(Decode(b))
    requires k + 4 <= CRC_AT || k == CRC_AT
    requires AgreeOutside(a, b, k, 4)
    ensures a == b
  {
    hide Decode, Front;
    FrontOfBlob(a);
    FrontOfBlob(b);
    EncodeDecode(a);
    EncodeDecode(b);
    assert a == a[..k] + a[k..k + 4] + a[k + 4..];
    assert b == b[..k] + b[k..k + 4] + b[k + 4..];
    assert CrcBytes(Decode(a).crc) == Encode(Decode(a))[CRC_AT..];
    assert CrcBytes(Decode(b).crc) == Encode(Decode(b))[CRC_AT..];
    if k == CRC_AT {
      assert a[..CRC_AT] == b[..CRC_AT];
      assert a[CRC_AT..] == b[CRC_AT..];
    } else {
      assert a[CRC_AT..] == a[k + 4..][CRC_AT - k - 4..] == b[CRC_AT..];
      SameCrcField(a, b);
      var after := a[k + 4..][..CRC_AT - k - 4] + ZERO_CRC;
      assert a[..CRC_AT] + ZERO_CRC == a[..k] + a[k..k + 4] + after;
      assert b[..CRC_AT] + ZERO_CRC == b[..k] + b[k..k + 4] + after;
      Crc.BurstIsSeen(0, a[..k], a[k..k + 4], b[k..k + 4], after);
    }
  }

  lemma SameCrcField(a: seq<bv8>, b: seq<bv8>)
    requires |a| == |b| == BLOB_BYTES && a[CRC_AT..] == b[CRC_AT..]
    ensures Decode(a).crc == Decode(b).crc
  {
    assert a[508..512] == a[CRC_AT..] && b[508..512] == b[CRC_AT..];
  }
}
