/** Loading a BPAK image from a partition: src/boot/image_helpers.c, the part offsets of src/lib/bpak.c and the
    bio path of src/boot/boot.c. */
module Loader {
  import opened Basics
  import opened Machine
  import B = Bpak

  /** What the loader looks at in a header: load holds the load address recorded for each part id. */
  datatype Image = Image(magic: nat, parts: seq<B.Part>, metas: seq<B.Meta>, load: map<B.Id, nat>,
                         hashKind: nat, payloadHash: seq<Byte>)

  datatype Rc = Ok | BadHeader | BadMeta | Mem | UnknownHash | Param | Io | BadPayload | Unauthentic | NotBootable

  predicate Transported(p: B.Part) { p.flags & 2 != 0 }

  function PartSize(p: B.Part): nat {
    if Transported(p) then p.transportSize else p.size + p.padBytes
  }

  // ---- header checks ----

  ghost predicate HeaderOk(img: Image) {
    && img.magic == B.MAGIC && img.hashKind != 0
    && (forall p | p in B.Listing(img.parts) :: (p.size + p.padBytes) % 512 == 0)
    && (forall i | 0 <= i < |img.metas| && (forall j | 0 <= j <= i :: img.metas[j].id != 0) ::
          img.metas[i].size + img.metas[i].offset <= B.METADATA_BYTES)
  }

  method ValidHeader(img: Image) returns (ok: bool)
    ensures ok <==> HeaderOk(img)
    ensures ok <==> && img.magic == 0x42504132 && img.hashKind != 0
                    && (forall p | p in B.Listing(img.parts) :: (p.size + p.padBytes) % 512 == 0)
                    && (forall i | 0 <= i < |img.metas| && (forall j | 0 <= j <= i :: img.metas[j].id != 0) ::
                          img.metas[i].size + img.metas[i].offset <= 1920)
  {
    hide B.Listing;
    if img.magic != B.MAGIC {
      return false;
    }
    ghost var l := B.Listing(img.parts);
    var i := 0;
    while i < |img.parts|
      invariant 0 <= i <= |l|
      invariant forall k | 0 <= k < i :: (l[k].size + l[k].padBytes) % 512 == 0
    {
      if img.parts[i].id == 0 {
        break;
      }
      if (img.parts[i].size + img.parts[i].padBytes) % 512 != 0 {
        assert l[i] in l;
        return false;
      }
      i := i + 1;
    }
    assert forall p | p in l :: (p.size + p.padBytes) % 512 == 0;
    var m := 0;
    while m < |img.metas|
      invariant 0 <= m <= |img.metas| && forall j | 0 <= j < m :: img.metas[j].id != 0
      invariant forall j | 0 <= j < m :: img.metas[j].size + img.metas[j].offset <= B.METADATA_BYTES
    {
      if img.metas[m].id == 0 {
        break;
      }
      if img.metas[m].size + img.metas[m].offset > B.METADATA_BYTES {
        return false;
      }
      m := m + 1;
    }
    ok := img.hashKind != 0;
  }

  const PB_LOAD_ADDR: B.Id := 0xd1e64a4b

  /** The entry a part's load address is read from: the first with that id and the part for reference. */
  predicate AddressEntry(img: Image, part: B.Id, i: nat) {
    && i < |img.metas| && img.metas[i].id == PB_LOAD_ADDR && img.metas[i].ref == part
    && forall j | 0 <= j < i :: img.metas[j].id != PB_LOAD_ADDR || img.metas[j].ref != part
  }

  /** The eight bytes of the address lie inside the metadata area. */
  predicate AddressInside(m: B.Meta) { m.offset + 8 <= B.METADATA_BYTES }

  /** An accepted header keeps every listed address of at least eight bytes inside the area ... */
  lemma LongAddressInside(img: Image, part: B.Id, i: nat)
    requires HeaderOk(img) && AddressEntry(img, part, i) && forall j | 0 <= j <= i :: img.metas[j].id != 0
    ensures img.metas[i].size >= 8 ==> AddressInside(img.metas[i])
  {
  }

  /** ... but it may hold a shorter one, and then the read runs past the end of the area. */
  lemma ShortAddressCanBeOutside(part: B.Id) returns (img: Image)
    ensures HeaderOk(img) && AddressEntry(img, part, 0) && !AddressInside(img.metas[0])
  {
    img := Image(B.MAGIC, [], [B.Meta(PB_LOAD_ADDR, 0, 1920, part)], map[], 1, []);
  }

  datatype Region = Region(start: nat, end: nat)

  predicate Overlaps(at: nat, n: nat, r: Region) { at <= r.end && at + n >= r.start }

  /** The part has a load address, and its window meets none of the regions. */
  ghost predicate PartOk(img: Image, regions: seq<Region>, p: B.Part) {
    p.id in img.load && forall r | r in regions :: !Overlaps(img.load[p.id], PartSize(p), r)
  }

  ghost predicate PartsOk(img: Image, regions: seq<Region>) {
    forall p | p in B.Listing(img.parts) :: PartOk(img, regions, p)
  }

  /** Part i is the first that is not in order. */
  ghost predicate FirstBad(img: Image, regions: seq<Region>, i: nat) {
    var l := B.Listing(img.parts);
    i < |l| && !PartOk(img, regions, l[i]) && forall k | 0 <= k < i :: PartOk(img, regions, l[k])
  }

  /** The regions are those of the stack, data, zeroed data, code and non-initialised data, in this order. */
  method VerifyParts(img: Image, regions: seq<Region>) returns (rc: Rc)
    ensures rc == Ok <==> HeaderOk(img) && PartsOk(img, regions)
    ensures rc == Ok <==> HeaderOk(img) && forall p | p in B.Listing(img.parts) ::
              p.id in img.load && forall r | r in regions ::
                img.load[p.id] + PartSize(p) < r.start || r.end < img.load[p.id]
    ensures rc == BadHeader <==> !HeaderOk(img)
    ensures rc == Ok || rc == BadHeader || rc == BadMeta || rc == Mem
    ensures rc == BadMeta ==> exists i: nat :: FirstBad(img, regions, i) && B.Listing(img.parts)[i].id !in img.load
    ensures rc == Mem ==> exists i: nat :: FirstBad(img, regions, i) && B.Listing(img.parts)[i].id in img.load
  {
    hide HeaderOk, B.Listing, PartSize;
    var ok := ValidHeader(img);
    if !ok {
      return BadHeader;
    }
    ghost var l := B.Listing(img.parts);
    var i := 0;
    while i < |img.parts|
      invariant 0 <= i <= |l| && forall k | 0 <= k < i :: PartOk(img, regions, l[k])
    {
      var p := img.parts[i];
      if p.id == 0 {
        break;
      }
      assert p == l[i] && l[i] in l;
      if p.id !in img.load {
        assert FirstBad(img, regions, i);
        return BadMeta;
      }
      var k := 0;
      while k < |regions|
        invariant 0 <= k <= |regions|
        invariant forall j | 0 <= j < k :: !Overlaps(img.load[p.id], PartSize(p), regions[j])
      {
        if Overlaps(img.load[p.id], PartSize(p), regions[k]) {
          assert FirstBad(img, regions, i);
          return Mem;
        }
        k := k + 1;
      }
      i := i + 1;
    }
    rc := Ok;
  }

  // ---- where parts are ----

  /** Where part i starts in the payload: the sizes of the parts before it. */
  function Start(l: seq<B.Part>, i: nat): nat
    requires i <= |l|
  {
    if i == 0 then 0 else Start(l, i - 1) + PartSize(l[i - 1])
  }

  ghost predicate Distinct(l: seq<B.Part>) {
    forall i, j | 0 <= i < j < |l| :: l[i].id != l[j].id
  }

  /** Finds a part by id, so that parts with distinct ids start where the ones before them end. */
  method PartOffset(parts: seq<B.Part>, id: B.Id) returns (offset: nat)
    ensures forall i | 0 <= i < |B.Listing(parts)| :: B.Listing(parts)[i].id == id && Distinct(B.Listing(parts)) ==>
              offset == B.HEADER_SIZE + Start(B.Listing(parts), i)
  {
    hide B.Listing, PartSize;
    ghost var l := B.Listing(parts);
    offset := B.HEADER_SIZE;
    var i := 0;
    while i < |parts|
      invariant 0 <= i <= |l| && offset == B.HEADER_SIZE + Start(l, i)
      invariant forall k | 0 <= k < i :: l[k].id != id
    {
      if parts[i].id == 0 {
        break;
      }
      if parts[i].id == id {
        break;
      }
      offset := offset + PartSize(parts[i]);
      i := i + 1;
    }
  }

  lemma {:induction false} StartAligned(l: seq<B.Part>, i: nat)
    requires i <= |l| && forall p | p in l :: PartSize(p) % 512 == 0
    ensures Start(l, i) % 512 == 0
  {
    hide PartSize;
    if i > 0 {
      StartAligned(l, i - 1);
    }
  }

  lemma {:induction false} StartsRise(l: seq<B.Part>, i: nat, j: nat)
    requires i <= j <= |l|
    ensures Start(l, i) <= Start(l, j)
    decreases j
  {
    hide PartSize;
    if i < j {
      StartsRise(l, i, j - 1);
    }
  }

  /** The bytes of a part: what was prepared for transport, or the data with its padding. */
  predicate PartHas(l: seq<B.Part>, i: nat, y: nat) {
    && i < |l| && Start(l, i) <= y
    && y < Start(l, i) + if l[i].flags & 2 != 0 then l[i].transportSize else l[i].size + l[i].padBytes
  }

  /** The parts tile the payload: every byte of it belongs to exactly one of them, and later bytes to later parts. */
  lemma PartsTile(l: seq<B.Part>, y: nat)
    ensures y < Start(l, |l|) <==> exists i: nat :: PartHas(l, i, y)
    ensures forall i: nat, j: nat, z | PartHas(l, i, y) && PartHas(l, j, z) && y <= z :: i <= j
  {
    forall i: nat | PartHas(l, i, y)
      ensures y < Start(l, |l|)
    {
      StartsRise(l, i + 1, |l|);
    }
    if y < Start(l, |l|) {
      var i := PartAt(l, |l|, y);
    }
    forall i: nat, j: nat, z | PartHas(l, i, y) && PartHas(l, j, z) && y <= z
      ensures i <= j
    {
      if j < i {
        StartsRise(l, j + 1, i);
      }
    }
  }

  lemma {:induction false} PartAt(l: seq<B.Part>, n: nat, y: nat) returns (i: nat)
    requires n <= |l| && y < Start(l, n)
    ensures PartHas(l, i, y)
  {
    if y < Start(l, n - 1) {
      i := PartAt(l, n - 1, y);
    } else {
      i := n - 1;
    }
  }

  // ---- loading ----

  /** Two windows share no byte. */
  predicate Apart(a: nat, n: nat, b: nat, m: nat) { n == 0 || m == 0 || a + n <= b || b + m <= a }

  /** The bytes of a part in the payload; a part without bytes may lie anywhere. */
  function Bytes(dev: Device, from: nat, n: nat): seq<Byte> {
    if from + n <= |dev.data| then dev.data[from..from + n] else []
  }

  /** A window of memory holds the n bytes of the payload that start at from. */
  ghost predicate Loaded(ram: seq<Byte>, at: nat, dev: Device, from: nat, n: nat) {
    && at + n <= |ram| && (n == 0 || from + n <= |dev.data|)
    && Window(ram, at, n) == Bytes(dev, from, n)
  }

  lemma LoadedGrows(r0: seq<Byte>, r: seq<Byte>, at: nat, dev: Device, from: nat, k: nat, n: nat)
    requires Loaded(r0, at, dev, from, k) && Changed(r0, r, at + k, n) && Loaded(r, at + k, dev, from + k, n) && n > 0
    ensures Loaded(r, at, dev, from, k + n) && Bytes(dev, from, k + n) == Bytes(dev, from, k) + Bytes(dev, from + k, n)
  {
    assert r[at..at + k + n] == r[at..at + k] + r[at + k..at + k + n];
    assert r[at..at + k] == r0[at..at + k];
  }

  /** The outstanding range is what was left of an earlier one, or lies inside a window. */
  ghost predicate Owed(addr: nat, left: nat, addr0: nat, left0: nat, at: nat, n: nat) {
    || left == 0
    || (addr0 <= addr && addr + left <= addr0 + left0)
    || (at <= addr && addr + left <= at + n)
  }

  lemma ChangedMore(r0: seq<Byte>, r1: seq<Byte>, r2: seq<Byte>, at: nat, n: nat, k: nat, m: nat)
    requires Changed(r0, r1, at, n) && Changed(r1, r2, at + k, m) && k + m <= n
    ensures Changed(r0, r2, at, n)
  {
  }

  lemma BlockOf(x: nat)
    requires x % 512 == 0
    ensures x / 512 * 512 == x
  {
  }

  predicate InBlocks(n: nat) { n % 512 == 0 }

  /** A chunk is read to its place and handed to the hash driver. */
  method LoadChunk(b: Board, dev: Device, from: nat, n: nat, at: nat) returns (ok: bool)
    requires b.Ok() && at + n <= b.ram.Length && b.Clear(at, n) && n > 0
    requires InBlocks(from) && InBlocks(n) && dev.block == 512
    modifies b, b.ram
    ensures b.Ok() && Changed(old(b.ram[..]), b.ram[..], at, n)
    ensures Owed(b.addr, b.left, old(b.addr), old(b.left), at, n)
    ensures ok ==> b.addr == at && b.left == n
    ensures ok ==> Loaded(b.ram[..], at, dev, from, n) && b.Fed() == old(b.Fed()) + Bytes(dev, from, n)
    ensures dev.bad == {} && from + n <= |dev.data| ==> ok
  {
    hide Changed, b.Fed;
    BlockOf(from);
    BlockOf(n);
    ok := b.Read(dev, from / 512, n, at);
    if ok {
      b.UpdateAsync(at, n);
    }
  }

  lemma BlocksApart(x: nat, y: nat)
    requires InBlocks(x) && InBlocks(y)
    ensures InBlocks(x + y) && (y <= x ==> InBlocks(x - y))
  {
  }

  /** One part, chunk by chunk. */
  method LoadPart(b: Board, dev: Device, from: nat, size: nat, at: nat, chunk: nat) returns (ok: bool)
    requires b.Ok() && at + size <= b.ram.Length && b.Clear(at, size)
    requires InBlocks(from) && InBlocks(size) && InBlocks(chunk) && chunk > 0 && dev.block == 512
    modifies b, b.ram
    ensures b.Ok() && Changed(old(b.ram[..]), b.ram[..], at, size)
    ensures Owed(b.addr, b.left, old(b.addr), old(b.left), at, size)
    ensures ok ==> Loaded(b.ram[..], at, dev, from, size) && b.Fed() == old(b.Fed()) + Bytes(dev, from, size)
    ensures dev.bad == {} && from + size <= |dev.data| ==> ok
  {
    hide Changed, Loaded, Bytes, b.Fed;
    var left, offset := size, 0;
    BlocksApart(size, 0);
    hide InBlocks;
    NotChanged(b.ram[..], at, size);
    NothingLoaded(b.ram[..], at, dev, from);
    while left > 0
      invariant 0 <= offset && 0 <= left && offset + left == size && InBlocks(offset) && InBlocks(left)
      invariant b.Ok() && Changed(old(b.ram[..]), b.ram[..], at, size)
      invariant Owed(b.addr, b.left, old(b.addr), old(b.left), at, offset)
      invariant Loaded(b.ram[..], at, dev, from, offset)
      invariant b.Fed() == old(b.Fed()) + Bytes(dev, from, offset)
    {
      var n := if left > chunk then chunk else left;
      ghost var r, fed := b.ram[..], b.Fed();
      BlocksApart(from, offset);
      BlocksApart(left, n);
      BlocksApart(offset, n);
      ok := LoadChunk(b, dev, from + offset, n, at + offset);
      ChangedMore(old(b.ram[..]), r, b.ram[..], at, size, offset, n);
      if !ok {
        return;
      }
      LoadedGrows(r, b.ram[..], at, dev, from, offset, n);
      left := left - n;
      offset := offset + n;
    }
    ok := true;
  }

  lemma NothingLoaded(ram: seq<Byte>, at: nat, dev: Device, from: nat)
    requires at <= |ram|
    ensures Loaded(ram, at, dev, from, 0) && Bytes(dev, from, 0) == []
  {
  }

  // ---- the whole image ----

  function LoadAt(img: Image, p: B.Part): nat { if p.id in img.load then img.load[p.id] else 0 }

  /** All load windows are inside memory and pairwise disjoint, part ids are distinct, and parts prepared for
      transport are whole blocks like the others. */
  ghost predicate Loadable(img: Image, memory: nat) {
    var l := B.Listing(img.parts);
    && Distinct(l)
    && (forall p | p in l :: LoadAt(img, p) + PartSize(p) <= memory)
    && (forall p | p in l && Transported(p) :: p.transportSize % 512 == 0)
    && (forall i, j | 0 <= i < j < |l| :: Apart(LoadAt(img, l[i]), PartSize(l[i]), LoadAt(img, l[j]), PartSize(l[j])))
  }

  /** An address no part is loaded to. */
  ghost predicate Outside(img: Image, l: seq<B.Part>, y: nat) {
    forall p | p in l :: !(LoadAt(img, p) <= y < LoadAt(img, p) + PartSize(p))
  }

  ghost predicate Untouched(img: Image, l: seq<B.Part>, r0: seq<Byte>, r: seq<Byte>) {
    |r0| == |r| && forall y | 0 <= y < |r0| && Outside(img, l, y) :: r[y] == r0[y]
  }

  /** The first n parts are in memory where they belong. */
  ghost predicate AllLoaded(img: Image, l: seq<B.Part>, n: nat, ram: seq<Byte>, dev: Device)
    requires n <= |l|
  {
    forall i | 0 <= i < n :: Loaded(ram, LoadAt(img, l[i]), dev, Start(l, i), PartSize(l[i]))
  }

  lemma PartsKept(img: Image, l: seq<B.Part>, n: nat, r0: seq<Byte>, r: seq<Byte>, dev: Device)
    requires n < |l| && AllLoaded(img, l, n, r0, dev) && Changed(r0, r, LoadAt(img, l[n]), PartSize(l[n]))
    requires forall i | 0 <= i < n :: Apart(LoadAt(img, l[i]), PartSize(l[i]), LoadAt(img, l[n]), PartSize(l[n]))
    ensures AllLoaded(img, l, n, r, dev)
  {
    hide PartSize, Start, LoadAt, Bytes;
    forall i | 0 <= i < n
      ensures Loaded(r, LoadAt(img, l[i]), dev, Start(l, i), PartSize(l[i]))
    {
      WindowKept(r0, r, LoadAt(img, l[n]), PartSize(l[n]), LoadAt(img, l[i]), PartSize(l[i]));
    }
  }

  lemma WindowKept(r0: seq<Byte>, r: seq<Byte>, at: nat, n: nat, w: nat, m: nat)
    requires Changed(r0, r, at, n) && Apart(w, m, at, n) && w + m <= |r0|
    ensures Window(r, w, m) == Window(r0, w, m)
  {
  }

  lemma StillUntouched(img: Image, l: seq<B.Part>, n: nat, r0: seq<Byte>, r1: seq<Byte>, r2: seq<Byte>)
    requires n < |l| && Untouched(img, l, r0, r1) && Changed(r1, r2, LoadAt(img, l[n]), PartSize(l[n]))
    ensures Untouched(img, l, r0, r2)
  {
    hide PartSize, LoadAt;
    assert l[n] in l;
  }

  /** The driver's outstanding range lies in the window of one of the first n parts. */
  ghost predicate Behind(img: Image, l: seq<B.Part>, n: nat, addr: nat, left: nat)
    requires n <= |l|
  {
    left == 0 || exists i :: 0 <= i < n && In(img, l[i], addr, left)
  }

  predicate In(img: Image, p: B.Part, addr: nat, left: nat) {
    LoadAt(img, p) <= addr && addr + left <= LoadAt(img, p) + PartSize(p)
  }

  lemma BehindIsClear(img: Image, l: seq<B.Part>, n: nat, addr: nat, left: nat)
    requires n < |l| && Behind(img, l, n, addr, left)
    requires forall i | 0 <= i < n :: Apart(LoadAt(img, l[i]), PartSize(l[i]), LoadAt(img, l[n]), PartSize(l[n]))
    ensures left == 0 || PartSize(l[n]) == 0 || addr + left <= LoadAt(img, l[n])
            || LoadAt(img, l[n]) + PartSize(l[n]) <= addr
  {
    hide PartSize, LoadAt;
  }

  lemma BehindNext(img: Image, l: seq<B.Part>, n: nat, addr: nat, left: nat, addr0: nat, left0: nat)
    requires n < |l| && Behind(img, l, n, addr0, left0)
    requires Owed(addr, left, addr0, left0, LoadAt(img, l[n]), PartSize(l[n]))
    ensures Behind(img, l, n + 1, addr, left)
  {
    hide PartSize, LoadAt;
    if left != 0 {
      if LoadAt(img, l[n]) <= addr && addr + left <= LoadAt(img, l[n]) + PartSize(l[n]) {
        assert In(img, l[n], addr, left);
      } else {
        var i :| 0 <= i < n && In(img, l[i], addr0, left0);
        assert In(img, l[i], addr, left);
      }
    }
  }

  lemma PayloadGrows(dev: Device, from: nat, n: nat)
    requires from <= |dev.data| && (n == 0 || from + n <= |dev.data|)
    ensures from + n <= |dev.data| && Bytes(dev, 0, from + n) == Bytes(dev, 0, from) + Bytes(dev, from, n)
  {
  }

  function DigestLength(kind: nat): nat { if kind == 1 then 32 else if kind == 2 then 48 else 64 }

  lemma PartFacts(img: Image, memory: nat, i: nat)
    requires HeaderOk(img) && Loadable(img, memory) && i < |B.Listing(img.parts)|
    ensures var l := B.Listing(img.parts);
            && PartSize(l[i]) % 512 == 0 && Start(l, i) % 512 == 0 && LoadAt(img, l[i]) + PartSize(l[i]) <= memory
            && Start(l, i + 1) == Start(l, i) + PartSize(l[i]) <= Start(l, |l|)
            && forall j | 0 <= j < i :: Apart(LoadAt(img, l[j]), PartSize(l[j]), LoadAt(img, l[i]), PartSize(l[i]))
  {
    hide LoadAt, B.Listing;
    var l := B.Listing(img.parts);
    assert l[i] in l;
    StartAligned(l, i);
    StartsRise(l, i + 1, |l|);
  }

  /** Nothing in the header stops the load, and the payload is inside the partition. */
  ghost predicate CanLoad(img: Image, dev: Device, digestSize: nat) {
    && HeaderOk(img) && img.hashKind <= 3 && DigestLength(img.hashKind) <= digestSize && Payload(img) <= |dev.data|
    && forall p | p in B.Listing(img.parts) :: p.id in img.load
  }

  /** Loader correctness, for every chunk size and every way the hash driver spreads its work: success means that
      every part is in memory at its load address, byte for byte, and that the digest is that of all parts in
      table order; whatever happens, no byte outside the load windows changes. */
  method LoadAndHash(b: Board, img: Image, chunk: nat, dev: Device, digestSize: nat, h: (nat, seq<Byte>) -> seq<Byte>)
    returns (rc: Rc, digest: seq<Byte>)
    requires b.Ok() && Loadable(img, b.ram.Length) && chunk > 0 && chunk % 512 == 0 && dev.block == 512
    modifies b, b.ram
    ensures Untouched(img, B.Listing(img.parts), old(b.ram[..]), b.ram[..])
    ensures rc == Ok ==> AllLoaded(img, B.Listing(img.parts), |B.Listing(img.parts)|, b.ram[..], dev)
    ensures rc == Ok ==> Payload(img) <= |dev.data| && digest == h(img.hashKind, dev.data[..Payload(img)])
    ensures rc == BadHeader <==> !HeaderOk(img)
    ensures rc == UnknownHash <==> HeaderOk(img) && img.hashKind > 3
    ensures rc == Param <==> HeaderOk(img) && img.hashKind <= 3 && digestSize < DigestLength(img.hashKind)
    ensures rc == BadMeta ==> exists p :: p in B.Listing(img.parts) && p.id !in img.load
    ensures rc == Io ==> dev.bad != {} || Payload(img) > |dev.data|
    ensures rc == Ok || rc == BadHeader || rc == UnknownHash || rc == Param || rc == BadMeta || rc == Io
    ensures rc == Ok ==> CanLoad(img, dev, digestSize)
    ensures CanLoad(img, dev, digestSize) && dev.bad == {} ==> rc == Ok
  {
    hide HeaderOk, Loadable, Untouched, AllLoaded, Loaded, Bytes, B.Listing, PartSize, LoadAt, b.Fed, Start, Apart,
      Behind, Owed, Distinct;
    var ok := ValidHeader(img);
    ghost var l := B.Listing(img.parts);
    NothingTouched(img, l, b.ram[..]);
    digest := [];
    if !ok {
      return BadHeader, digest;
    }
    KnownKind(img);
    if img.hashKind > 3 {
      return UnknownHash, digest;
    }
    if digestSize < DigestLength(img.hashKind) {
      return Param, digest;
    }
    b.Init();
    var i := 0;
    Begin(img, l, b.ram[..], dev);
    while i < |img.parts|
      invariant 0 <= i <= |l| && b.Ok() && Behind(img, l, i, b.addr, b.left)
      invariant Untouched(img, l, old(b.ram[..]), b.ram[..]) && AllLoaded(img, l, i, b.ram[..], dev)
      invariant Start(l, i) <= |dev.data| && b.Fed() == Bytes(dev, 0, Start(l, i))
      invariant forall k | 0 <= k < i :: l[k].id in img.load
    {
      var p := img.parts[i];
      if p.id == 0 {
        break;
      }
      assert p == l[i] && p in l;
      if p.id !in img.load {
        return BadMeta, digest;
      }
      var offset := PartOffset(img.parts, p.id);
      DistinctIds(img, b.ram.Length);
      PartFacts(img, b.ram.Length, i);
      BehindIsClear(img, l, i, b.addr, b.left);
      ghost var r, addr, left := b.ram[..], b.addr, b.left;
      ok := LoadPart(b, dev, offset - B.HEADER_SIZE, PartSize(p), LoadAt(img, p), chunk);
      StillUntouched(img, l, i, old(b.ram[..]), r, b.ram[..]);
      if !ok {
        return Io, digest;
      }
      PartsKept(img, l, i, r, b.ram[..], dev);
      OneLoaded(img, l, i, b.ram[..], dev);
      BehindNext(img, l, i, b.addr, b.left, addr, left);
      LoadedEnd(b.ram[..], LoadAt(img, p), dev, Start(l, i), PartSize(p));
      PayloadGrows(dev, Start(l, i), PartSize(p));
      i := i + 1;
    }
    var input := b.Final(Bytes(dev, 0, Start(l, |l|)));
    WholePayload(img, dev);
    rc, digest := Ok, h(img.hashKind, input);
  }

  function Payload(img: Image): nat { Start(B.Listing(img.parts), |B.Listing(img.parts)|) }

  lemma KnownKind(img: Image)
    requires HeaderOk(img)
    ensures img.hashKind > 0
  {
  }

  lemma DistinctIds(img: Image, memory: nat)
    requires Loadable(img, memory)
    ensures Distinct(B.Listing(img.parts))
  {
  }

  lemma NothingTouched(img: Image, l: seq<B.Part>, ram: seq<Byte>)
    ensures Untouched(img, l, ram, ram)
  {
  }

  lemma Begin(img: Image, l: seq<B.Part>, ram: seq<Byte>, dev: Device)
    ensures AllLoaded(img, l, 0, ram, dev) && Behind(img, l, 0, 0, 0) && Start(l, 0) == 0 && Bytes(dev, 0, 0) == []
    ensures forall addr :: Behind(img, l, 0, addr, 0)
  {
  }

  lemma OneLoaded(img: Image, l: seq<B.Part>, n: nat, ram: seq<Byte>, dev: Device)
    requires n < |l| && AllLoaded(img, l, n, ram, dev)
    requires Loaded(ram, LoadAt(img, l[n]), dev, Start(l, n), PartSize(l[n]))
    ensures AllLoaded(img, l, n + 1, ram, dev)
  {
  }

  lemma LoadedEnd(ram: seq<Byte>, at: nat, dev: Device, from: nat, n: nat)
    requires Loaded(ram, at, dev, from, n)
    ensures n == 0 || from + n <= |dev.data|
  {
  }

  lemma WholePayload(img: Image, dev: Device)
    requires Payload(img) <= |dev.data|
    ensures Bytes(dev, 0, Payload(img)) == dev.data[..Payload(img)]
  {
  }

  // ---- the boot path ----

  /** A header as it is hashed and kept: the signature and its size, the last 514 bytes, are cleared. */
  function Unsigned(header: seq<Byte>): (r: seq<Byte>)
    ensures |r| == |header|
  {
    seq(|header|, i requires 0 <= i < |header| => if i < 3582 then header[i] else 0)
  }

  function Prefix(s: seq<Byte>, n: nat): seq<Byte> { if n <= |s| then s[..n] else s }

  function SignatureSize(header: seq<Byte>): nat
    requires |header| == B.HEADER_SIZE
  {
    header[4094] as nat + 256 * header[4095] as nat
  }

  predicate SignatureFits(header: seq<Byte>)
    requires |header| == B.HEADER_SIZE
  {
    0 < SignatureSize(header) <= 512
  }

  function SignatureOf(header: seq<Byte>): seq<Byte>
    requires |header| == B.HEADER_SIZE && SignatureFits(header)
  {
    header[3582..3582 + SignatureSize(header)]
  }

  lemma InnerWindow(ram: seq<Byte>, at: nat, n: nat, from: nat, k: nat)
    requires at + n <= |ram| && from + k <= n
    ensures Window(ram, at + from, k) == Window(ram, at, n)[from..from + k]
  {
    var w, inner := Window(ram, at, n), Window(ram, at + from, k);
    forall i | 0 <= i < k
      ensures inner[i] == w[from..from + k][i]
    {
      assert w[from + i] == ram[at + (from + i)];
    }
  }

  /** Takes the signature out of a header in memory; a size that cannot be one leaves the header alone. */
  method CopySignature(b: Board, at: nat) returns (ok: bool, signature: seq<Byte>)
    requires b.Ok() && b.left == 0 && at + B.HEADER_SIZE <= b.ram.Length
    modifies b.ram
    ensures var header := old(Window(b.ram[..], at, B.HEADER_SIZE));
            && ok == SignatureFits(header) && (ok ==> signature == SignatureOf(header))
            && Window(b.ram[..], at, B.HEADER_SIZE) == if ok then Unsigned(header) else header
    ensures ok ==> forall y | 0 <= y < b.ram.Length ::
              b.ram[y] == if at + 3582 <= y < at + 4096 then 0 else old(b.ram[y])
    ensures Changed(old(b.ram[..]), b.ram[..], at, B.HEADER_SIZE) && b.Ok()
  {
    var header := Window(b.ram[..], at, B.HEADER_SIZE);
    var size := b.ram[at + 4094] as nat + 256 * b.ram[at + 4095] as nat;
    assert header[4094] == b.ram[at + 4094] && header[4095] == b.ram[at + 4095];
    if size > 512 || size == 0 {
      return false, [];
    }
    ok, signature := true, Window(b.ram[..], at + 3582, size);
    InnerWindow(b.ram[..], at, B.HEADER_SIZE, 3582, size);
    ClearSignature(b, at);
  }

  method ClearSignature(b: Board, at: nat)
    requires b.Ok() && b.left == 0 && at + B.HEADER_SIZE <= b.ram.Length
    modifies b.ram
    ensures Window(b.ram[..], at, B.HEADER_SIZE) == Unsigned(old(Window(b.ram[..], at, B.HEADER_SIZE)))
    ensures forall y | 0 <= y < b.ram.Length :: b.ram[y] == if at + 3582 <= y < at + 4096 then 0 else old(b.ram[y])
    ensures Changed(old(b.ram[..]), b.ram[..], at, B.HEADER_SIZE) && b.Ok()
  {
    var i := 3582;
    while i < 4096
      invariant 3582 <= i <= 4096 && b.Ok() && b.left == 0
      invariant forall y | 0 <= y < b.ram.Length ::
                  b.ram[y] == if at + 3582 <= y < at + i then 0 else old(b.ram[y])
    {
      b.Store(at + i, 0);
      i := i + 1;
    }
  }

  /** Which keys may be used, and the signature check: given the image, a signature and a digest. */
  datatype Keys = Keys(trusted: Image -> bool, verify: (Image, seq<Byte>, seq<Byte>) -> bool)

  /** The signature in the header is good for the header without it. */
  ghost predicate Authentic(header: seq<Byte>, img: Image, keys: Keys, h: (nat, seq<Byte>) -> seq<Byte>)
    requires |header| == B.HEADER_SIZE
  {
    && HeaderOk(img) && keys.trusted(img) && img.hashKind <= 3 && SignatureFits(header)
    && keys.verify(img, SignatureOf(header), h(img.hashKind, Unsigned(header)))
  }

  /** An authentic header has a key in use, a known hash, and a signature over its first 3582 bytes and zeros. */
  lemma AuthenticIsSigned(header: seq<Byte>, img: Image, keys: Keys, h: (nat, seq<Byte>) -> seq<Byte>)
    requires |header| == 4096
    ensures var n := header[4094] as nat + 256 * header[4095] as nat;
            Authentic(header, img, keys, h) <==>
              && HeaderOk(img) && keys.trusted(img) && 1 <= img.hashKind <= 3 && 0 < n <= 512
              && keys.verify(img, header[3582..3582 + n], h(img.hashKind, header[..3582] + seq(514, _ => 0)))
  {
    assert Unsigned(header) == header[..3582] + seq(514, _ => 0);
  }

  /** So two authentic headers that differ in their first 3582 bytes have signatures for two different messages. */
  lemma UnsignedSees(a: seq<Byte>, b: seq<Byte>)
    requires |a| == |b| == 4096
    ensures Unsigned(a) == Unsigned(b) <==> a[..3582] == b[..3582]
  {
    if Unsigned(a) == Unsigned(b) {
      forall i | 0 <= i < 3582
        ensures a[i] == b[i]
      {
        assert Unsigned(a)[i] == a[i] && Unsigned(b)[i] == b[i];
      }
    } else {
      var i :| 0 <= i < 4096 && Unsigned(a)[i] != Unsigned(b)[i];
      assert a[..3582][i] == a[i] && b[..3582][i] == b[i];
    }
  }

  method AuthHeader(b: Board, at: nat, img: Image, keys: Keys, h: (nat, seq<Byte>) -> seq<Byte>) returns (rc: Rc)
    requires b.Ok() && b.left == 0 && at + B.HEADER_SIZE <= b.ram.Length
    modifies b, b.ram
    ensures b.Ok() && b.left == 0 && Changed(old(b.ram[..]), b.ram[..], at, B.HEADER_SIZE)
    ensures var header := old(Window(b.ram[..], at, B.HEADER_SIZE));
            && (rc == Ok <==> Authentic(header, img, keys, h)) && rc != NotBootable && rc != BadPayload
            && (rc == Ok ==> Window(b.ram[..], at, B.HEADER_SIZE) == Unsigned(header))
  {
    hide HeaderOk;
    ghost var header := Window(b.ram[..], at, B.HEADER_SIZE);
    NotChanged(b.ram[..], at, B.HEADER_SIZE);
    var ok := ValidHeader(img);
    if !ok {
      return BadHeader;
    }
    if !keys.trusted(img) {
      return Unauthentic;
    }
    if img.hashKind > 3 {
      return UnknownHash;
    }
    b.Init();
    var signature;
    ok, signature := CopySignature(b, at);
    if !ok {
      return Param;
    }
    b.UpdateAsync(at, B.HEADER_SIZE);
    var input := b.Final(Unsigned(header));
    rc := if keys.verify(img, signature, h(img.hashKind, input)) then Ok else Unauthentic;
  }

  /** The image can be loaded and is the one its header describes. */
  ghost predicate Sound(dev: Device, img: Image, regions: seq<Region>, h: (nat, seq<Byte>) -> seq<Byte>) {
    && HeaderOk(img) && img.hashKind <= 3 && PartsOk(img, regions) && Payload(img) <= |dev.data|
    && Prefix(img.payloadHash, DigestLength(img.hashKind))
       == Prefix(h(img.hashKind, dev.data[..Payload(img)]), DigestLength(img.hashKind))
  }

  /** A sound image's payload has the digest its header records, in all the bytes a digest of its kind has. */
  lemma SoundDigest(dev: Device, img: Image, regions: seq<Region>, h: (nat, seq<Byte>) -> seq<Byte>, n: nat)
    requires (img.hashKind == 1 && n == 32) || (img.hashKind == 2 && n == 48) || (img.hashKind == 3 && n == 64)
    requires HeaderOk(img) && PartsOk(img, regions) && Payload(img) <= |dev.data|
    requires |img.payloadHash| >= n && |h(img.hashKind, dev.data[..Payload(img)])| == n
    ensures Sound(dev, img, regions, h) <==> img.payloadHash[..n] == h(img.hashKind, dev.data[..Payload(img)])
  {
    var d := h(img.hashKind, dev.data[..Payload(img)]);
    assert d[..n] == d;
  }

  /** Two partitions that boot with the same header have the same payload, or the hash has a collision on them. */
  lemma SamePayloadOrCollision(d1: Device, d2: Device, img: Image, regions: seq<Region>,
                               h: (nat, seq<Byte>) -> seq<Byte>)
    requires Sound(d1, img, regions, h) && Sound(d2, img, regions, h) && |img.payloadHash| == 64
    requires forall x :: |h(1, x)| == 32 && |h(2, x)| == 48 && |h(3, x)| == 64
    ensures var n := Payload(img);
            n <= |d1.data| && n <= |d2.data| && h(img.hashKind, d1.data[..n]) == h(img.hashKind, d2.data[..n])
  {
    var n := if img.hashKind == 1 then 32 else if img.hashKind == 2 then 48 else 64;
    SoundDigest(d1, img, regions, h, n);
    SoundDigest(d2, img, regions, h, n);
  }

  /** Bytes of a checked region are not loaded to. */
  lemma CheckedIsOutside(img: Image, regions: seq<Region>, r: Region, y: nat)
    requires PartsOk(img, regions) && r in regions && r.start <= y <= r.end
    ensures Outside(img, B.Listing(img.parts), y)
  {
    hide PartSize, B.Listing;
    forall p | p in B.Listing(img.parts)
      ensures !(LoadAt(img, p) <= y < LoadAt(img, p) + PartSize(p))
    {
      assert !Overlaps(img.load[p.id], PartSize(p), r);
    }
  }

  /** Boot from a partition whose last 4096 bytes are the header. It succeeds, when no read fails, exactly for a
      bootable partition with an authentic header whose payload has the digest the header records; then all parts
      are loaded and the header in memory is still the one that was authenticated. In any case every checked
      region is left alone. */
  method LoadFromBio(b: Board, dev: Device, bootable: bool, hdrAt: nat, regions: seq<Region>, chunk: nat,
                     decode: seq<Byte> -> Image, keys: Keys, h: (nat, seq<Byte>) -> seq<Byte>)
    returns (rc: Rc)
    requires b.Ok() && b.left == 0 && hdrAt + B.HEADER_SIZE <= b.ram.Length
    requires dev.block == 512 && |dev.data| % 512 == 0 && |dev.data| >= B.HEADER_SIZE && chunk > 0 && chunk % 512 == 0
    requires exists r :: r in regions && r.start <= hdrAt && hdrAt + B.HEADER_SIZE <= r.end
    requires var header := dev.data[|dev.data| - B.HEADER_SIZE..];
             var img := decode(Unsigned(header));
             Authentic(header, img, keys, h) ==> Loadable(img, b.ram.Length)
    modifies b, b.ram
    ensures var header := dev.data[|dev.data| - B.HEADER_SIZE..];
            var img := decode(Unsigned(header));
            && (rc == Ok ==> bootable && Authentic(header, img, keys, h) && Sound(dev, img, regions, h))
            && (dev.bad == {} && bootable && Authentic(header, img, keys, h) && Sound(dev, img, regions, h)
                ==> rc == Ok)
            && (rc == Ok ==> AllLoaded(img, B.Listing(img.parts), |B.Listing(img.parts)|, b.ram[..], dev))
            && (rc == Ok ==> Window(b.ram[..], hdrAt, B.HEADER_SIZE) == Unsigned(header))
            && (rc == NotBootable <==> !bootable) && (rc == Unauthentic ==> !Authentic(header, img, keys, h))
            && (dev.bad == {} && bootable && Authentic(header, img, keys, h) && PartsOk(img, regions)
                && Payload(img) <= |dev.data|
                ==> rc == if Sound(dev, img, regions, h) then Ok else BadPayload)
            && (rc == BadPayload ==> Authentic(header, img, keys, h) && PartsOk(img, regions))
    ensures forall r, y | r in regions && r.start <= y <= r.end && y < b.ram.Length
                          && !(hdrAt <= y < hdrAt + B.HEADER_SIZE) :: b.ram[y] == old(b.ram[y])
  {
    hide Loadable, HeaderOk, PartsOk, AllLoaded, B.Listing, PartSize, Start, Unsigned, Window, Payload, Prefix, Untouched,
      DigestLength, Outside, b.Fed, SignatureFits, SignatureOf;
    ghost var r0, header := b.ram[..], dev.data[|dev.data| - B.HEADER_SIZE..];
    if !bootable {
      return NotBootable;
    }
    HeaderBlock(dev);
    var ok := b.Read(dev, (|dev.data| - B.HEADER_SIZE) / 512, B.HEADER_SIZE, hdrAt);
    if !ok {
      return Io;
    }
    var bytes := Window(b.ram[..], hdrAt, B.HEADER_SIZE);
    assert bytes == header;
    var img := decode(Unsigned(bytes));
    rc := AuthHeader(b, hdrAt, img, keys, h);
    if rc != Ok {
      return;
    }
    rc := VerifyParts(img, regions);
    if rc != Ok {
      return;
    }
    AllHaveAddress(img, regions);
    ghost var r1 := b.ram[..];
    var digest;
    rc, digest := LoadAndHash(b, img, chunk, dev, 64, h);
    RegionsKept(img, regions, r1, b.ram[..], hdrAt);
    if rc != Ok {
      return;
    }
    var n := DigestLength(img.hashKind);
    rc := if Prefix(img.payloadHash, n) == Prefix(digest, n) then Ok else BadPayload;
  }

  lemma AllHaveAddress(img: Image, regions: seq<Region>)
    requires PartsOk(img, regions)
    ensures forall p | p in B.Listing(img.parts) :: p.id in img.load
    ensures DigestLength(img.hashKind) <= 64
  {
  }

  lemma HeaderBlock(dev: Device)
    requires dev.block == 512 && |dev.data| % 512 == 0 && |dev.data| >= B.HEADER_SIZE
    ensures var lba := (|dev.data| - B.HEADER_SIZE) / 512;
            lba * 512 == |dev.data| - B.HEADER_SIZE && lba * 512 + B.HEADER_SIZE == |dev.data|
            && dev.data[lba * 512..lba * 512 + B.HEADER_SIZE] == dev.data[|dev.data| - B.HEADER_SIZE..]
  {
  }

  lemma RegionsKept(img: Image, regions: seq<Region>, r1: seq<Byte>, r2: seq<Byte>, hdrAt: nat)
    requires PartsOk(img, regions) && Untouched(img, B.Listing(img.parts), r1, r2) && hdrAt + B.HEADER_SIZE <= |r1|
    requires exists r :: r in regions && r.start <= hdrAt && hdrAt + B.HEADER_SIZE <= r.end
    ensures |r1| == |r2|
    ensures forall r, y | r in regions && r.start <= y <= r.end && 0 <= y < |r1| :: r2[y] == r1[y]
    ensures Window(r2, hdrAt, B.HEADER_SIZE) == Window(r1, hdrAt, B.HEADER_SIZE)
  {
    hide PartsOk, B.Listing, PartSize, Outside;
    forall r, y | r in regions && r.start <= y <= r.end && 0 <= y < |r1|
      ensures r2[y] == r1[y]
    {
      CheckedIsOutside(img, regions, r, y);
    }
    var r :| r in regions && r.start <= hdrAt && hdrAt + B.HEADER_SIZE <= r.end;
    assert forall y | hdrAt <= y < hdrAt + B.HEADER_SIZE :: r2[y] == r1[y];
  }
}
