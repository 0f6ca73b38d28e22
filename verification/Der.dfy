/** Decoding an ECDSA signature from its DER form: src/lib/der_helpers.c. The encoding is ECDSA-Sig-Value of section
    2.2.3 of RFC 3279 with lengths as in section 8.1.3 of ITU-T X.690. */
module Der {

  type Octet = x: nat | x < 256

  const WORD: nat := 0x1_0000_0000_0000_0000

  /** The decoder is given no end of input: reading past the memory it is meant to read is an outcome of its own. */
  datatype Rc = Ok | Asn1 | TooSmall | Overrun

  /** Big-endian value. */
  function Value(b: seq<Octet>): nat {
    if b == [] then 0 else Value(b[..|b| - 1]) * 256 + b[|b| - 1]
  }

  // ---- lengths ----

  datatype Size = Size(len: nat, next: nat) | NoSize(rc: Rc)

  /** A length field: its octet when below 128, else the big-endian value of as many octets as it says, one to four. */
  function SizeAt(m: seq<Octet>, p: nat): Size {
    if p >= |m| then NoSize(Overrun)
    else if m[p] < 128 then Size(m[p], p + 1)
    else var k := m[p] - 128;
      if k == 0 || k > 4 then NoSize(Asn1)
      else if p + 1 + k > |m| then NoSize(Overrun)
      else Size(Value(m[p + 1..p + 1 + k]), p + 1 + k)
  }

  lemma Values(m: seq<Octet>, p: nat, k: nat)
    requires 1 <= k <= 4 && p + k <= |m|
    ensures Value(m[p..p + 1]) == (m[p] as int)
    ensures k >= 2 ==> Value(m[p..p + 2]) == (m[p] as int) * 256 + (m[p + 1] as int)
    ensures k >= 3 ==> Value(m[p..p + 3]) == (m[p] as int) * 65536 + (m[p + 1] as int) * 256 + (m[p + 2] as int)
    ensures k >= 4 ==> Value(m[p..p + 4]) == (m[p] as int) * 16777216 + (m[p + 1] as int) * 65536
                                             + (m[p + 2] as int) * 256 + (m[p + 3] as int)
  {
    assert m[p..p + 1][..0] == [];
    if k >= 2 {
      assert m[p..p + 2][..1] == m[p..p + 1];
    }
    if k >= 3 {
      assert m[p..p + 3][..2] == m[p..p + 2];
    }
    if k >= 4 {
      assert m[p..p + 4][..3] == m[p..p + 3];
    }
  }

  method Asn1Size(m: seq<Octet>, p: nat) returns (rc: Rc, len: nat, next: nat)
    ensures SizeAt(m, p) == if rc == Ok then Size(len, next) else NoSize(rc)
    ensures rc == Overrun || (rc == Asn1 <==> p < |m| && (m[p] == 0x80 || m[p] > 0x84))
  {
    rc, len, next := Ok, 0, p;
    if p >= |m| {
      return Overrun, len, next;
    }
    if m[p] < 128 {
      len, next := m[p], p + 1;
    } else {
      var k := m[p] % 128;
      if 1 <= k <= 4 && p + k >= |m| {
        return Overrun, len, next;
      }
      if 1 <= k <= 4 {
        Values(m, p + 1, k);
      }
      match k {
        case 1 => len, next := m[p + 1], p + 2;
        case 2 => len, next := (m[p + 1] as int) * 0x100 + (m[p + 2] as int), p + 3;
        case 3 => len, next := (m[p + 1] as int) * 0x10000 + (m[p + 2] as int) * 0x100 + (m[p + 3] as int), p + 4;
        case 4 =>
          len := (m[p + 1] as int) * 0x1000000 + (m[p + 2] as int) * 0x10000 + (m[p + 3] as int) * 0x100
                 + (m[p + 4] as int);
          next := p + 5;
        case _ => rc := Asn1;
      }
    }
  }

  /** The octets of n, exactly k of them. */
  function Octets(n: nat, k: nat): (b: seq<Octet>)
    ensures |b| == k
  {
    if k == 0 then [] else Octets(n / 256, k - 1) + [n % 256]
  }

  /** The DER length field of n. */
  function Length(n: nat): seq<Octet> {
    if n < 0x80 then [n]
    else if n < 0x100 then [0x81] + Octets(n, 1)
    else if n < 0x10000 then [0x82] + Octets(n, 2)
    else if n < 0x1000000 then [0x83] + Octets(n, 3)
    else [0x84] + Octets(n, 4)
  }

  lemma {:induction false} OctetsValue(n: nat, k: nat)
    requires k <= 4 && n < (if k == 0 then 1 else if k == 1 then 0x100 else if k == 2 then 0x10000
                            else if k == 3 then 0x1000000 else 0x1_0000_0000)
    ensures Value(Octets(n, k)) == n
  {
    if k > 0 {
      OctetsValue(n / 256, k - 1);
      assert Octets(n, k)[..k - 1] == Octets(n / 256, k - 1);
    }
  }

  /** Reading a length undoes writing it, wherever it stands, for every length below 2^32. */
  lemma SizeOfLength(pre: seq<Octet>, n: nat, tail: seq<Octet>)
    requires n < 0x1_0000_0000
    ensures SizeAt(pre + Length(n) + tail, |pre|) == Size(n, |pre| + |Length(n)|)
  {
    hide Octets, Value;
    var m, p, k := pre + Length(n) + tail, |pre|, |Length(n)| - 1;
    assert m[p..p + 1 + k] == Length(n);
    assert m[p] == Length(n)[0];
    if n >= 0x80 {
      OctetsValue(n, k);
      assert Length(n)[1..] == Octets(n, k);
      assert m[p + 1..p + 1 + k] == m[p..p + 1 + k][1..];
    }
  }

  // ---- integers ----

  datatype Int = Int(octets: seq<Octet>, next: nat) | NoInt(rc: Rc)

  /** The contents of an integer. The octet after the length is always looked at, and the one after that when it is
      zero; dropping a zero from an integer without contents wraps the size around. */
  function BodyAt(m: seq<Octet>, q: nat, size: nat, length: nat, suppress: bool): Int {
    if q >= |m| || (m[q] == 0 && q + 1 >= |m|) then NoInt(Overrun)
    else
      var drop := m[q] == 0 && m[q + 1] >= 128 && suppress;
      var from, n := if drop then q + 1 else q, if drop then (size - 1) % WORD else size;
      if n > length then NoInt(TooSmall)
      else if from + n > |m| then NoInt(Overrun)
      else Int(m[from..from + n], from + n)
  }

  function IntAt(m: seq<Octet>, p: nat, length: nat, suppress: bool): Int {
    if p >= |m| then NoInt(Overrun)
    else if m[p] != 2 then NoInt(Asn1)
    else match SizeAt(m, p + 1)
      case NoSize(rc) => NoInt(rc)
      case Size(size, q) => BodyAt(m, q, size, length, suppress)
  }

  /** Reads an integer and copies its contents to the front of out. */
  method ReadInt(m: seq<Octet>, p0: nat, length: nat, suppress: bool, out: array<Octet>) returns (rc: Rc, p: nat)
    requires length <= out.Length
    modifies out
    ensures var i := IntAt(m, p0, length, suppress);
            if rc == Ok then i.Int? && i.next == p && |i.octets| <= length && out[..|i.octets|] == i.octets
                             && out[|i.octets|..] == old(out[..])[|i.octets|..]
            else i == NoInt(rc) && out[..] == old(out[..])
  {
    hide SizeAt;
    p := p0;
    if p >= |m| {
      return Overrun, p;
    }
    if m[p] != 2 {
      return Asn1, p;
    }
    var size;
    rc, size, p := Asn1Size(m, p + 1);
    if rc != Ok {
      return;
    }
    if p >= |m| || (m[p] == 0 && p + 1 >= |m|) {
      return Overrun, p;
    }
    if m[p] == 0 && m[p + 1] >= 128 && suppress {
      p := p + 1;
      size := (size - 1) % WORD;
    }
    if size > length {
      return TooSmall, p;
    }
    if p + size > |m| {
      return Overrun, p;
    }
    forall i | 0 <= i < size {
      out[i] := m[p + i];
    }
    p := p + size;
  }

  datatype Signature = Signature(r: seq<Octet>, s: seq<Octet>) | NoSignature(rc: Rc)

  function SignatureAt(m: seq<Octet>, length: nat, suppress: bool): Signature {
    if m == [] then NoSignature(Overrun)
    else if m[0] != 0x30 then NoSignature(Asn1)
    else match SizeAt(m, 1)
      case NoSize(rc) => NoSignature(rc)
      case Size(_, q) =>
        match IntAt(m, q, length, suppress)
        case NoInt(rc) => NoSignature(rc)
        case Int(r, q2) =>
          match IntAt(m, q2, length, suppress)
          case NoInt(rc) => NoSignature(rc)
          case Int(s, _) => Signature(r, s)
  }

  /** The decoder: on success the two numbers are at the front of the outputs and the rest of them is unchanged. */
  method EcsigToRs(sig: seq<Octet>, r: array<Octet>, s: array<Octet>, length: nat, suppress: bool) returns (rc: Rc)
    requires length <= r.Length && length <= s.Length && r != s
    modifies r, s
    ensures SignatureAt(sig, length, suppress).NoSignature? <==> rc != Ok
    ensures rc != Ok ==> SignatureAt(sig, length, suppress).rc == rc && s[..] == old(s[..])
    ensures sig != [] && sig[0] != 0x30 ==> rc == Asn1
    ensures rc == Ok ==> var d := SignatureAt(sig, length, suppress);
                         && |d.r| <= length && r[..|d.r|] == d.r && r[|d.r|..] == old(r[..])[|d.r|..]
                         && |d.s| <= length && s[..|d.s|] == d.s && s[|d.s|..] == old(s[..])[|d.s|..]
  {
    hide SizeAt, IntAt;
    if sig == [] {
      return Overrun;
    }
    if sig[0] != 0x30 {
      return Asn1;
    }
    var size, p;
    rc, size, p := Asn1Size(sig, 1);
    if rc != Ok {
      return;
    }
    rc, p := ReadInt(sig, p, length, suppress, r);
    if rc != Ok {
      return;
    }
    rc, p := ReadInt(sig, p, length, suppress, s);
  }

  // ---- the encoding and the round trip ----

  /** The minimal big-endian octets of a positive number. */
  predicate Positive(b: seq<Octet>) { b != [] && b[0] != 0 }

  /** DER puts a zero before a number whose first bit is set. */
  function Contents(b: seq<Octet>): seq<Octet>
    requires Positive(b)
  {
    if b[0] >= 128 then [0] + b else b
  }

  function EncodeInt(b: seq<Octet>): seq<Octet>
    requires Positive(b)
  {
    [2] + Length(|Contents(b)|) + Contents(b)
  }

  function EncodeSignature(r: seq<Octet>, s: seq<Octet>): seq<Octet>
    requires Positive(r) && Positive(s)
  {
    [0x30] + Length(|EncodeInt(r) + EncodeInt(s)|) + (EncodeInt(r) + EncodeInt(s))
  }

  function Output(b: seq<Octet>, suppress: bool): seq<Octet>
    requires Positive(b)
  {
    if suppress then b else Contents(b)
  }

  lemma BodyOfContents(pre: seq<Octet>, b: seq<Octet>, tail: seq<Octet>, length: nat, suppress: bool)
    requires Positive(b) && |Contents(b)| < 0x1_0000_0000
    ensures BodyAt(pre + Contents(b) + tail, |pre|, |Contents(b)|, length, suppress)
            == if |Output(b, suppress)| > length then NoInt(TooSmall)
               else Int(Output(b, suppress), |pre| + |Contents(b)|)
  {
    var m, q, c := pre + Contents(b) + tail, |pre|, Contents(b);
    assert m[q] == c[0];
    assert m[q..q + |c|] == c;
    if b[0] >= 128 {
      assert m[q + 1] == c[1] == b[0];
      assert m[q + 1..q + |c|] == b;
    }
  }

  lemma IntOfEncoding(pre: seq<Octet>, b: seq<Octet>, tail: seq<Octet>, length: nat, suppress: bool)
    requires Positive(b) && |Contents(b)| < 0x1_0000_0000
    ensures IntAt(pre + EncodeInt(b) + tail, |pre|, length, suppress)
            == if |Output(b, suppress)| > length then NoInt(TooSmall)
               else Int(Output(b, suppress), |pre| + |EncodeInt(b)|)
  {
    hide SizeAt, BodyAt, Contents, Length, Output;
    var m, c := pre + EncodeInt(b) + tail, Contents(b);
    var size := Length(|c|);
    assert m == (pre + [2]) + size + (c + tail);
    SizeOfLength(pre + [2], |c|, c + tail);
    assert m == (pre + [2] + size) + c + tail;
    BodyOfContents(pre + [2] + size, b, tail, length, suppress);
  }

  /** Round trip: decoding the encoding of any two positive numbers, whatever follows it in memory, gives their
      minimal octets when leading zeros are suppressed (and their DER contents otherwise), unless one of them is
      longer than an output. In particular the decoder never reads past the encoding. */
  lemma DecodeEncoded(r: seq<Octet>, s: seq<Octet>, tail: seq<Octet>, length: nat, suppress: bool)
    requires Positive(r) && Positive(s) && |EncodeInt(r) + EncodeInt(s)| < 0x1_0000_0000
    ensures SignatureAt(EncodeSignature(r, s) + tail, length, suppress)
            == if |Output(r, suppress)| > length || |Output(s, suppress)| > length then NoSignature(TooSmall)
               else Signature(Output(r, suppress), Output(s, suppress))
  {
    hide SizeAt, IntAt, Length, Output, Contents;
    var er, es := EncodeInt(r), EncodeInt(s);
    var m, size := EncodeSignature(r, s) + tail, Length(|er + es|);
    assert m == [0x30] + size + (er + es + tail);
    SizeOfLength([0x30], |er + es|, er + es + tail);
    assert m == ([0x30] + size) + er + (es + tail);
    ContentsShorter(r);
    ContentsShorter(s);
    IntOfEncoding([0x30] + size, r, es + tail, length, suppress);
    assert m == ([0x30] + size + er) + es + tail;
    IntOfEncoding([0x30] + size + er, s, tail, length, suppress);
  }

  lemma ContentsShorter(b: seq<Octet>)
    requires Positive(b)
    ensures |Contents(b)| < |EncodeInt(b)|
  {
  }

  lemma IntLooks(b: seq<Octet>)
    requires Positive(b) && |b| <= 48
    ensures EncodeInt(b) == if b[0] < 128 then [2, |b|] + b else [2, |b| + 1, 0] + b
  {
  }

  /** What the encoding looks like: a sequence (tag 48) of two integers (tag 2), each with its length before it. */
  lemma EncodedLooks(r: seq<Octet>, s: seq<Octet>)
    requires Positive(r) && Positive(s) && r[0] < 128 <= s[0] && |r| <= 48 && |s| <= 48
    ensures EncodeSignature(r, s) == [48, |r| + |s| + 5, 2, |r|] + r + [2, |s| + 1, 0] + s
    ensures SignatureAt([48, |r| + |s| + 5, 2, |r|] + r + [2, |s| + 1, 0] + s, 48, true) == Signature(r, s)
  {
    hide SignatureAt, Octets;
    IntLooks(r);
    IntLooks(s);
    assert EncodeSignature(r, s) == [48, |r| + |s| + 5, 2, |r|] + r + [2, |s| + 1, 0] + s by {
      hide EncodeInt, Contents;
    }
    DecodeEncoded(r, s, [], 48, true);
    assert EncodeSignature(r, s) + [] == EncodeSignature(r, s);
  }

  /** Longer lengths say in their first octet how many octets follow. */
  lemma LengthLooks(a: Octet, b: Octet, c: Octet, d: Octet, n: nat)
    requires n < 128
    ensures SizeAt([n], 0) == Size(n, 1)
    ensures SizeAt([0x81, a], 0) == Size(a, 2)
    ensures SizeAt([0x82, a, b], 0) == Size(a * 256 + b, 3)
    ensures SizeAt([0x83, a, b, c], 0) == Size(a * 65536 + b * 256 + c, 4)
    ensures SizeAt([0x84, a, b, c, d], 0) == Size(a * 16777216 + b * 65536 + c * 256 + d, 5)
  {
    Values([0x81, a], 1, 1);
    Values([0x82, a, b], 1, 2);
    Values([0x83, a, b, c], 1, 3);
    Values([0x84, a, b, c, d], 1, 4);
  }

  /** An integer of no octets with a zero and a set bit after it: taking the zero off leaves a size of 2^64 - 1. */
  lemma NothingToSuppress(tail: seq<Octet>, length: nat)
    requires length < WORD - 1
    ensures IntAt([2, 0, 0, 128] + tail, 0, length, true) == NoInt(TooSmall)
    ensures IntAt([2, 0, 0, 128] + tail, 0, length, false) == Int([], 2)
  {
    var m := [2, 0, 0, 128] + tail;
    assert m[..2] == [2, 0];
    assert m[2] == 0 && m[3] == 128;
    assert SizeAt(m, 1) == Size(0, 2);
    assert m[2..2] == [];
  }
}
