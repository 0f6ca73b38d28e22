/** Writing a file to a partition and verifying it afterwards: tools/punchboot/api_partition.c on the host,
    src/cm/cm_main.c on the device. */
module PartStore {
  import opened Basics
  import opened Machine
  import B = Bpak

  const WORD: nat := 0x1_0000_0000_0000_0000

  datatype Rc = Ok | NoMemory | IoError | Mismatch

  predicate Whole(n: nat, block: nat) { block > 0 && n % block == 0 }

  // ---- the device verifies ----

  /** What a verification of n bytes hashes: for a BPAK file the header at the end of the partition first, then the
      rest of the file from the start; the count left after the header wraps like the machine word it is. */
  function Rest(n: nat, bpak: bool): nat { if bpak then (n - B.HEADER_SIZE) % WORD else n }

  function Image(data: seq<Byte>, n: nat, bpak: bool): seq<Byte>
    requires (bpak ==> B.HEADER_SIZE <= |data|) && Rest(n, bpak) <= |data|
  {
    (if bpak then data[|data| - B.HEADER_SIZE..] else []) + data[..Rest(n, bpak)]
  }

  ghost predicate DeviceOk(dev: Device) { Whole(|dev.data|, dev.block) }

  /** The partition has room for a header at its end. */
  ghost predicate HeaderOk(dev: Device) { Whole(B.HEADER_SIZE, dev.block) && B.HEADER_SIZE <= |dev.data| }

  lemma WholeBlocks(x: nat, block: nat)
    requires block > 0 && x % block == 0
    ensures x / block * block == x
  {
  }

  lemma BlocksAdd(x: nat, y: nat, block: nat)
    requires block > 0 && x % block == 0 && y % block == 0
    ensures (x + y) % block == 0 && (x + y) / block == x / block + y / block
  {
    WholeBlocks(x, block);
    WholeBlocks(y, block);
    var q := x / block + y / block;
    assert x + y == q * block;
    DivIs(x + y, block, q, 0);
  }

  lemma {:induction false} Grow(a: nat, b: nat, d: nat)
    ensures a < b ==> a * d + d <= b * d
  {
    if a < b {
      assert b * d == (b - 1) * d + d;
      Grow(a, b - 1, d);
    }
  }

  lemma DivIs(x: nat, d: nat, q: nat, r: nat)
    requires d > 0 && x == q * d + r && r < d
    ensures x / d == q && x % d == r
  {
    Grow(q, x / d, d);
    Grow(x / d, q, d);
    DivMod(x, d);
  }

  lemma DivMod(x: nat, d: nat)
    requires d > 0
    ensures x == x / d * d + x % d && 0 <= x % d < d
  {
  }

  /** Whole blocks that start inside a partition of whole blocks end inside it. */
  lemma RoomForBlocks(from: nat, n: nat, size: nat, block: nat)
    requires block > 0 && from % block == 0 && size % block == 0 && from + n <= size
    ensures from / block * block + Blocks(n, block) * block <= size
  {
    WholeBlocks(from, block);
    WholeBlocks(size, block);
    var have := size / block - from / block;
    assert have * block == size - from;
    FewBlocks(n, block, have);
    Grow(Blocks(n, block), have, block);
  }

  lemma FewBlocks(n: nat, block: nat, have: nat)
    requires block > 0 && n <= have * block
    ensures Blocks(n, block) <= have
  {
    DivMod(n, block);
    Grow(have, n / block, block);
  }

  /** Buffer 0 or 1 of the double buffer at base. */
  function BufferAt(base: nat, size: nat, id: nat): nat { if id == 0 then base else base + size }

  function InBlocks(n: nat, block: nat): nat
    requires block > 0
  {
    n / block
  }

  /** Block lba is where byte at is. */
  ghost predicate AtBlock(dev: Device, at: nat, lba: nat) {
    dev.block > 0 && at % dev.block == 0 && lba == at / dev.block
  }

  lemma NextChunk(dev: Device, at: nat, n: nat, lba: nat)
    requires AtBlock(dev, at, lba) && Whole(n, dev.block)
    ensures AtBlock(dev, at + n, lba + InBlocks(n, dev.block))
  {
    BlocksAdd(at, n, dev.block);
  }

  lemma Reaches(dev: Device, at: nat, n: nat, lba: nat)
    requires AtBlock(dev, at, lba) && DeviceOk(dev)
    ensures lba * dev.block == at
    ensures at + n <= |dev.data| ==> InRange(dev, lba, n)
  {
    WholeBlocks(at, dev.block);
    if at + n <= |dev.data| {
      RoomForBlocks(at, n, |dev.data|, dev.block);
    }
  }

  lemma AtStart(dev: Device)
    requires DeviceOk(dev)
    ensures dev.block > 0 && AtBlock(dev, 0, 0)
  {
    DivIs(0, dev.block, 0, 0);
  }

  lemma HeaderPlace(dev: Device)
    requires DeviceOk(dev) && HeaderOk(dev)
    ensures B.HEADER_SIZE / dev.block <= |dev.data| / dev.block
    ensures AtBlock(dev, |dev.data| - B.HEADER_SIZE, |dev.data| / dev.block - B.HEADER_SIZE / dev.block)
    ensures dev.data[|dev.data| - B.HEADER_SIZE..|dev.data|] == dev.data[|dev.data| - B.HEADER_SIZE..]
  {
    var a, c := |dev.data| / dev.block, B.HEADER_SIZE / dev.block;
    WholeBlocks(|dev.data|, dev.block);
    WholeBlocks(B.HEADER_SIZE, dev.block);
    Grow(a, c, dev.block);
    assert (a - c) * dev.block == a * dev.block - c * dev.block;
    DivIs(|dev.data| - B.HEADER_SIZE, dev.block, a - c, 0);
  }

  /** Hash a chunk of the partition through one of the two buffers, while the other may still be outstanding. */
  method VerifyChunk(b: Board, dev: Device, lba: nat, ghost from: nat, n: nat, at: nat) returns (ok: bool)
    requires b.Ok() && at + n <= b.ram.Length && b.Clear(at, n) && DeviceOk(dev) && AtBlock(dev, from, lba)
    modifies b, b.ram
    ensures b.Ok() && (ok ==> b.addr == at && b.left == n)
    ensures ok ==> from + n <= |dev.data| && b.Fed() == old(b.Fed()) + dev.data[from..from + n]
    ensures dev.bad == {} && from + n <= |dev.data| ==> ok
  {
    hide InRange, b.Fed, AtBlock, DeviceOk;
    Reaches(dev, from, n, lba);
    ok := b.Read(dev, lba, n, at);
    if ok {
      b.UpdateAsync(at, n);
    }
  }

  /** The outstanding range is in buffer id, if there is one. */
  ghost predicate InBuffer(addr: nat, left: nat, base: nat, bufSize: nat, id: nat) {
    var at := BufferAt(base, bufSize, id);
    left == 0 || (at <= addr && addr + left <= at + bufSize)
  }

  /** Verification of a partition, for every way the hash driver spreads its work over the double buffer: what is
      compared is the digest of the header and the body as they are on the partition. */
  method PartVerify(b: Board, dev: Device, base: nat, bufSize: nat, size: nat, bpak: bool, sha: seq<Byte>,
                    h: seq<Byte> -> seq<Byte>) returns (rc: Rc)
    requires b.Ok() && DeviceOk(dev) && base + 2 * bufSize <= b.ram.Length && bufSize > 0 && Whole(bufSize, dev.block)
    requires bpak ==> HeaderOk(dev) && bufSize >= B.HEADER_SIZE
    modifies b, b.ram
    ensures rc == Ok ==> Rest(size, bpak) <= |dev.data| && h(Image(dev.data, size, bpak)) == sha
    ensures dev.bad == {} && Rest(size, bpak) <= |dev.data| && h(Image(dev.data, size, bpak)) == sha ==> rc == Ok
    ensures rc == Mismatch ==> Rest(size, bpak) <= |dev.data| && h(Image(dev.data, size, bpak)) != sha
    ensures rc == IoError ==> dev.bad != {} || Rest(size, bpak) > |dev.data|
    ensures rc == Ok || rc == Mismatch || rc == IoError
  {
    hide b.Fed, Rest, AtBlock, DeviceOk, Whole;
    AtStart(dev);
    var id := 0;
    b.Init();
    ghost var head: seq<Byte> := [];
    if bpak {
      HeaderPlace(dev);
      var lba := |dev.data| / dev.block - B.HEADER_SIZE / dev.block;
      var ok := VerifyChunk(b, dev, lba, |dev.data| - B.HEADER_SIZE, B.HEADER_SIZE, BufferAt(base, bufSize, id));
      if !ok {
        return IoError;
      }
      head := dev.data[|dev.data| - B.HEADER_SIZE..];
    }
    rc := VerifyBody(b, dev, base, bufSize, Rest(size, bpak), head);
    if rc == Ok {
      var input := b.Final(head + dev.data[..Rest(size, bpak)]);
      rc := if h(input) == sha then Ok else Mismatch;
    }
  }

  method VerifyBody(b: Board, dev: Device, base: nat, bufSize: nat, total: nat, ghost head: seq<Byte>) returns (rc: Rc)
    requires b.Ok() && DeviceOk(dev) && base + 2 * bufSize <= b.ram.Length && b.Fed() == head
    requires bufSize > 0 && Whole(bufSize, dev.block) && InBuffer(b.addr, b.left, base, bufSize, 0)
    modifies b, b.ram
    ensures b.Ok() && (rc == Ok || rc == IoError)
    ensures rc == Ok ==> total <= |dev.data| && b.Fed() == head + dev.data[..total]
    ensures dev.bad == {} && total <= |dev.data| ==> rc == Ok
  {
    hide b.Fed, AtBlock, DeviceOk, Whole, InBlocks;
    AtStart(dev);
    var id, left, lba: nat := 0, total, 0;
    ghost var done := 0;
    while left > 0
      invariant 0 <= left && done + left == total && (left > 0 ==> AtBlock(dev, done, lba))
      invariant b.Ok() && (id == 0 || id == 1) && done <= |dev.data|
      invariant InBuffer(b.addr, b.left, base, bufSize, id)
      invariant b.Fed() == head + dev.data[..done]
    {
      var n := if left > bufSize then bufSize else left;
      id := 1 - id;
      var ok := VerifyChunk(b, dev, lba, done, n, BufferAt(base, bufSize, id));
      if !ok {
        return IoError;
      }
      Joined(head, dev.data, done, n);
      if n == bufSize {
        NextChunk(dev, done, n, lba);
      }
      left := left - n;
      lba := lba + InBlocks(n, dev.block);
      done := done + n;
    }
    rc := Ok;
  }

  lemma Joined(head: seq<Byte>, data: seq<Byte>, done: nat, n: nat)
    requires done + n <= |data|
    ensures head + data[..done] + data[done..done + n] == head + data[..done + n]
  {
  }

  // ---- the host writes ----

  /** w laid over s from at on. */
  function Put(s: seq<Byte>, at: nat, w: seq<Byte>): (r: seq<Byte>)
    requires at + |w| <= |s|
    ensures |r| == |s|
  {
    s[..at] + w + s[at + |w|..]
  }

  /** The device end of a stream: a partition and two transfer buffers. */
  class Target {
    const part: array<Byte>
    const block: nat
    const bufSize: nat
    const writable: bool
    var buffers: seq<seq<Byte>>

    ghost predicate Ok()
      reads this
    {
      && Whole(part.Length, block) && Whole(bufSize, block) && bufSize > 0
      && |buffers| == 2 && |buffers[0]| == |buffers[1]| == bufSize
    }

    constructor (part: array<Byte>, block: nat, bufSize: nat, writable: bool)
      requires Whole(part.Length, block) && Whole(bufSize, block) && bufSize > 0
      ensures Ok() && this.part == part && this.block == block && this.bufSize == bufSize && this.writable == writable
    {
      this.part, this.block, this.bufSize, this.writable := part, block, bufSize, writable;
      var empty: seq<Byte> := seq(bufSize, _ => 0);
      buffers := [empty, empty];
    }

    method PrepareBuffer(id: nat, bytes: seq<Byte>) returns (rc: Rc)
      requires Ok()
      modifies `buffers
      ensures Ok()
      ensures rc == if |bytes| > bufSize || id > 1 then NoMemory else Rc.Ok
      ensures rc == Rc.Ok ==> buffers[id][..|bytes|] == bytes
      ensures forall i | 0 <= i <= 1 && (i != id || rc != Rc.Ok) :: buffers[i] == old(buffers[i])
    {
      if |bytes| > bufSize {
        return NoMemory;
      }
      if id > 1 {
        return NoMemory;
      }
      buffers := buffers[id := Put(buffers[id], 0, bytes)];
      rc := Rc.Ok;
    }

    /** The block is found by rounding the byte offset down. */
    method WriteBuffer(id: nat, offset: nat, size: nat) returns (rc: Rc)
      requires Ok() && id <= 1 && size <= bufSize && Whole(size, block)
      modifies part
      ensures rc == if writable && offset / block * block + size <= part.Length then Rc.Ok else IoError
      ensures rc == Rc.Ok ==> part[..] == Put(old(part[..]), offset / block * block, buffers[id][..size])
      ensures rc != Rc.Ok ==> part[..] == old(part[..])
    {
      if !writable {
        return IoError;
      }
      var lba := offset / block;
      if lba * block + Blocks(size, block) * block > part.Length {
        return IoError;
      }
      var at := lba * block;
      ghost var was := part[..];
      forall y | at <= y < at + size {
        part[y] := buffers[id][y - at];
      }
      assert part[..] == Put(was, at, buffers[id][..size]);
      rc := Rc.Ok;
    }
  }

  /** A chunk travels through a buffer to its place. */
  method SendChunk(t: Target, id: nat, bytes: seq<Byte>, offset: nat) returns (rc: Rc)
    requires t.Ok() && id <= 1 && |bytes| <= t.bufSize && Whole(|bytes|, t.block) && Whole(offset, t.block)
    modifies t, t.part
    ensures t.Ok()
    ensures rc == if t.writable && offset + |bytes| <= t.part.Length then Ok else IoError
    ensures rc == Ok ==> t.part[..] == Put(old(t.part[..]), offset, bytes)
  {
    hide Put;
    WholeBlocks(offset, t.block);
    rc := t.PrepareBuffer(id, bytes);
    rc := t.WriteBuffer(id, offset, |bytes|);
  }

  lemma PutNext(s: seq<Byte>, w: seq<Byte>, k: nat, n: nat)
    requires k + n <= |w| && k + n <= |s|
    ensures Put(Put(s, 0, w[..k]), k, w[k..k + n]) == Put(s, 0, w[..k + n])
  {
  }

  lemma WholeParts(a: nat, b: nat, block: nat)
    requires Whole(a, block) && Whole(b, block)
    ensures Whole(a + b, block) && (a <= b ==> Whole(b - a, block))
  {
    BlocksAdd(a, b, block);
    WholeBlocks(a, block);
    WholeBlocks(b, block);
    if a <= b {
      var p, q := a / block, b / block;
      Grow(q, p, block);
      assert b - a == (q - p) * block;
      DivIs(b - a, block, q - p, 0);
    }
  }

  method SendBody(t: Target, body: seq<Byte>, id0: nat) returns (rc: Rc)
    requires t.Ok() && Whole(|body|, t.block) && id0 <= 1
    modifies t, t.part
    ensures rc == Ok <==> body == [] || (t.writable && |body| <= t.part.Length)
    ensures rc == Ok ==> t.part[..] == Put(old(t.part[..]), 0, body)
  {
    hide Put, Whole;
    ghost var was := t.part[..];
    var id, offset := id0, 0;
    rc := Ok;
    PutNothing(was, body, t.block);
    while offset < |body|
      invariant 0 <= offset <= |body| && t.Ok() && id <= 1 && Whole(offset, t.block) && rc == Ok
      invariant offset == 0 || (t.writable && offset <= t.part.Length)
      invariant offset <= t.part.Length && t.part[..] == Put(was, 0, body[..offset])
    {
      var n := if |body| - offset > t.bufSize then t.bufSize else |body| - offset;
      WholeParts(offset, |body|, t.block);
      WholeParts(offset, n, t.block);
      rc := SendChunk(t, id, body[offset..offset + n], offset);
      if rc != Ok {
        return;
      }
      PutNext(was, body, offset, n);
      id := (id + 1) % 2;
      offset := offset + n;
    }
    assert body[..offset] == body;
  }

  lemma PutNothing(s: seq<Byte>, w: seq<Byte>, block: nat)
    ensures Put(s, 0, w[..0]) == s && (Whole(|w|, block) ==> Whole(0, block))
  {
    if block > 0 {
      DivIs(0, block, 0, 0);
    }
  }

  /** What the host leaves on the partition: the body at the start, over a header put at the end. */
  function Laid(s: seq<Byte>, file: seq<Byte>, bpak: bool): seq<Byte>
    requires |file| <= |s| && (bpak ==> B.HEADER_SIZE <= |file|)
  {
    if bpak then Put(Put(s, |s| - B.HEADER_SIZE, file[..B.HEADER_SIZE]), 0, file[B.HEADER_SIZE..]) else Put(s, 0, file)
  }

  /** The host writes the header of a BPAK file first and then streams the rest. */
  method PartitionWrite(t: Target, file: seq<Byte>, valid: seq<Byte> -> bool) returns (rc: Rc, bpak: bool)
    requires t.Ok() && Whole(|file|, t.block) && Whole(B.HEADER_SIZE, t.block) && B.HEADER_SIZE <= t.bufSize
    requires |file| <= t.part.Length
    modifies t, t.part
    ensures bpak <==> |file| >= B.HEADER_SIZE && valid(file[..B.HEADER_SIZE])
    ensures rc == Ok <==> file == [] || t.writable
    ensures rc == Ok ==> t.part[..] == Laid(old(t.part[..]), file, bpak)
  {
    hide Put, Whole;
    var id, body := 0, file;
    bpak := |file| >= B.HEADER_SIZE && valid(file[..B.HEADER_SIZE]);
    if bpak {
      WholeParts(B.HEADER_SIZE, t.part.Length, t.block);
      WholeParts(B.HEADER_SIZE, |file|, t.block);
      rc := SendChunk(t, id, file[..B.HEADER_SIZE], t.part.Length - B.HEADER_SIZE);
      if rc != Ok {
        return;
      }
      id, body := (id + 1) % 2, file[B.HEADER_SIZE..];
    }
    rc := SendBody(t, body, id);
  }

  /** A file that fits beside its header is found again in the order it is verified in. */
  lemma LaidIsImage(s: seq<Byte>, file: seq<Byte>, bpak: bool)
    requires |file| <= |s| && (bpak ==> B.HEADER_SIZE <= |file|) && |file| < WORD
    ensures |Laid(s, file, bpak)| == |s| && Rest(|file|, bpak) <= |s|
    ensures Image(Laid(s, file, bpak), |file|, bpak) == file
    ensures var laid, n := Laid(s, file, bpak), |file| - 4096;
            if bpak then laid[|s| - 4096..] == file[..4096] && laid[..n] == file[4096..]
                         && laid[n..|s| - 4096] == s[n..|s| - 4096]
            else laid == file + s[|file|..]
  {
    var laid := Laid(s, file, bpak);
    if bpak {
      RestIs(|file|);
      assert laid[|s| - B.HEADER_SIZE..] == file[..B.HEADER_SIZE];
      assert laid[..|file| - B.HEADER_SIZE] == file[B.HEADER_SIZE..];
    }
  }

  lemma RestIs(n: nat)
    requires B.HEADER_SIZE <= n < WORD
    ensures Rest(n, true) == n - B.HEADER_SIZE
  {
  }

  /** Write, then verify: whatever was on the partition, and however the device hashes, a file the host has written
      verifies with its own size and digest. */
  method WriteThenVerify(b: Board, t: Target, file: seq<Byte>, valid: seq<Byte> -> bool, base: nat,
                         h: seq<Byte> -> seq<Byte>) returns (rc: Rc)
    requires t.Ok() && Whole(|file|, t.block) && Whole(B.HEADER_SIZE, t.block) && B.HEADER_SIZE <= t.bufSize
    requires |file| <= t.part.Length && |file| < WORD && b.Ok() && base + 2 * t.bufSize <= b.ram.Length && b.ram != t.part
    modifies t, t.part, b, b.ram
    ensures rc == Ok <==> file == [] || t.writable
  {
    hide Image, Laid, Whole, Rest;
    ghost var was := t.part[..];
    var bpak;
    rc, bpak := PartitionWrite(t, file, valid);
    if rc == Ok {
      LaidIsImage(was, file, bpak);
      rc := PartVerify(b, Device(t.part[..], t.block, {}), base, t.bufSize, |file|, bpak, h(file), h);
    }
  }
}
