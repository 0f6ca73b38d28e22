/** The metadata table of a BPAK header in src/lib/bpak.c: up to 32 entries whose payloads are packed, in table
    order and 8-byte aligned, into one byte area. */
module Bpak {
  import opened Basics

  type Id = x: nat | x < 0x1_0000_0000
  type Half = x: nat | x < 0x1_0000

  const MAGIC: nat := 0x42504132
  const MAX_META: nat := 32
  const MAX_PARTS: nat := 32
  const METADATA_BYTES: nat := 1920
  const HEADER_SIZE: nat := 4096

  datatype Meta = Meta(id: Id, size: Half, offset: Half, ref: Id)
  datatype Part = Part(id: Id, size: nat, offset: nat, transportSize: nat, padBytes: nat, flags: bv8)
  datatype Code = Ok | NotFound | NoSpaceLeft | Exists

  const NO_PART := Part(0, 0, 0, 0, 0, 0)
  const FREE := Meta(0, 0, 0, 0)

  function Align(n: nat): (r: nat)
    ensures n <= r < n + 8 && r % 8 == 0
  {
    (n + 7) / 8 * 8
  }

  /** What the table stands for: a list of identified payloads. */
  datatype Entry = Entry(id: Id, ref: Id, data: seq<Byte>)

  /** Where entry i of a packed list starts. */
  function Start(l: seq<Entry>, i: nat): nat
    requires i <= |l|
  {
    if i == 0 then 0 else Start(l, i - 1) + Align(|l[i - 1].data|)
  }

  ghost predicate Listed(l: seq<Entry>, id: Id, ref: Id) {
    exists i :: 0 <= i < |l| && l[i].id == id && l[i].ref == ref
  }

  ghost predicate ListOk(l: seq<Entry>) {
    && |l| <= MAX_META && Start(l, |l|) <= METADATA_BYTES
    && (forall i | 0 <= i < |l| :: l[i].id != 0)
    && (forall i, j | 0 <= i < j < |l| :: l[i].id != l[j].id || l[i].ref != l[j].ref)
  }

  /** The bytes at off are data. */
  ghost predicate At(b: seq<Byte>, off: nat, data: seq<Byte>) {
    off + |data| <= |b| && b[off..off + |data|] == data
  }

  /** Slot i of the table and the byte area hold entry i of the list. */
  ghost predicate SlotHolds(t: seq<Meta>, b: seq<Byte>, l: seq<Entry>, i: nat)
    requires i < |l| && |t| == MAX_META && |b| == METADATA_BYTES
  {
    var off, size := Start(l, i), |l[i].data|;
    && i < |t| && t[i].id == l[i].id && t[i].ref == l[i].ref
    && t[i].size == size && t[i].offset == off && off + size <= |b| && At(b, off, l[i].data)
  }

  ghost predicate Holds(t: seq<Meta>, b: seq<Byte>, l: seq<Entry>) {
    && |t| == MAX_META && |b| == METADATA_BYTES && ListOk(l)
    && (forall i | 0 <= i < |l| :: SlotHolds(t, b, l, i))
    && (forall i | |l| <= i < |t| :: t[i].id == 0)
  }

  lemma {:induction false} StartsRise(l: seq<Entry>, i: nat, j: nat)
    requires i < j <= |l|
    ensures Start(l, i) + |l[i].data| <= Start(l, i) + Align(|l[i].data|) <= Start(l, j)
    decreases j
  {
    if i + 1 < j {
      StartsRise(l, i, j - 1);
    }
  }

  lemma {:induction false} StartAligned(l: seq<Entry>, i: nat)
    requires i <= |l|
    ensures Start(l, i) % 8 == 0
  {
    if i > 0 {
      StartAligned(l, i - 1);
    }
  }

  lemma {:induction false} StartSame(l: seq<Entry>, m: seq<Entry>, i: nat)
    requires i <= |l| && i <= |m| && forall j | 0 <= j < i :: l[j] == m[j]
    ensures Start(l, i) == Start(m, i)
  {
    if i > 0 {
      StartSame(l, m, i - 1);
    }
  }

  function Removed(l: seq<Entry>, at: nat): seq<Entry>
    requires at < |l|
  {
    l[..at] + l[at + 1..]
  }

  /** Deleting moves a payload down by the freed size and then clears its whole old range, so what lies beyond
      the freed size comes out as zeros. */
  function Cut(data: seq<Byte>, freed: nat): (r: seq<Byte>)
    ensures |r| == |data|
    ensures r == data <==> forall i | freed <= i < |data| :: data[i] == 0
  {
    var r := seq(|data|, i requires 0 <= i < |data| => if i < freed then data[i] else 0);
    assert r == data ==> forall i | freed <= i < |data| :: data[i] == r[i];
    r
  }

  /** The list after deletion, payload damage included. */
  function Deleted(l: seq<Entry>, at: nat): (r: seq<Entry>)
    requires at < |l|
    ensures |r| == |l| - 1
  {
    l[..at] + seq(|l| - 1 - at, i requires 0 <= i < |l| - 1 - at => CutEntry(l, at, at + 1 + i))
  }

  function CutEntry(l: seq<Entry>, at: nat, i: nat): Entry
    requires at < i < |l|
  {
    Entry(l[i].id, l[i].ref, Cut(l[i].data, Align(|l[at].data|)))
  }

  lemma {:induction false} StartDeleted(l: seq<Entry>, at: nat, i: nat)
    requires at < i <= |l|
    ensures Start(Deleted(l, at), i - 1) == Start(l, i) - Align(|l[at].data|)
  {
    var d := Deleted(l, at);
    if i == at + 1 {
      StartSame(l, d, at);
    } else {
      StartDeleted(l, at, i - 1);
      assert d[i - 2] == CutEntry(l, at, i - 1);
    }
  }

  lemma DeletedOk(l: seq<Entry>, at: nat)
    requires ListOk(l) && at < |l|
    ensures ListOk(Deleted(l, at))
  {
    hide Start, Align, Cut;
    StartDeleted(l, at, |l|);
    var d := Deleted(l, at);
    forall i | 0 <= i < |d|
      ensures d[i].id == l[Came(at, i)].id && d[i].ref == l[Came(at, i)].ref
    {
      if at <= i {
        assert d[i] == CutEntry(l, at, i + 1);
      }
    }
  }

  /** The old position of what is at i after deleting position at. */
  function Came(at: nat, i: nat): nat { if i < at then i else i + 1 }

  /** No later payload has a non-zero byte beyond the aligned size of the one to delete. */
  ghost predicate Removable(l: seq<Entry>, at: nat)
    requires at < |l|
  {
    forall i | at < i < |l| :: forall k | Align(|l[at].data|) <= k < |l[i].data| :: l[i].data[k] == 0
  }

  /** Deletion loses nothing but the deleted entry exactly when that holds; shorter payloads never spoil it. */
  lemma DeletedIsRemoved(l: seq<Entry>, at: nat)
    requires at < |l|
    ensures Deleted(l, at) == Removed(l, at) <==> Removable(l, at)
    ensures (forall i | at < i < |l| :: |l[i].data| <= Align(|l[at].data|)) ==> Removable(l, at)
  {
    hide Align, Cut;
    var d, r := Deleted(l, at), Removed(l, at);
    forall i | at < i < |l|
      ensures d[i - 1] == CutEntry(l, at, i) && r[i - 1] == l[i]
    {
    }
    assert d[..at] == r[..at] == l[..at];
    if Removable(l, at) {
      forall j | 0 <= j < |d|
        ensures d[j] == r[j]
      {
        if at <= j {
          assert d[j + 1 - 1] == CutEntry(l, at, j + 1);
        } else {
          assert d[j] == d[..at][j] == r[..at][j];
        }
      }
    }
    if d == r {
      forall i | at < i < |l|
        ensures forall k | Align(|l[at].data|) <= k < |l[i].data| :: l[i].data[k] == 0
      {
        assert d[i - 1] == r[i - 1];
      }
    }
  }

  /** A one-byte entry deleted in front of a longer one: the longer one does not survive. */
  lemma LongerPayloadIsCut() returns (l: seq<Entry>)
    ensures |l| == 2 && ListOk(l) && Deleted(l, 0) != Removed(l, 0)
  {
    l := [Entry(1, 0, [7]), Entry(2, 0, [7, 7, 7, 7, 7, 7, 7, 7, 7])];
    assert Start(l, 2) == Start(l, 1) + Align(9) && Start(l, 1) == Start(l, 0) + Align(1);
    assert l[1].data[8] != 0;
    assert !Removable(l, 0);
    DeletedIsRemoved(l, 0);
  }

  // ---- the header in memory ----

  /** The first slot that is free or, before it, the first that already has this id and reference; with the
      offset the scan has reached there. */
  function Scan(t: seq<Meta>, id: Id, ref: Id, i: nat, off: Half): (r: (nat, Half))
    requires i <= |t|
    ensures i <= r.0 <= |t|
    decreases |t| - i
  {
    if i == |t| || t[i].id == 0 || (t[i].id == id && t[i].ref == ref) then (i, off)
    else Scan(t, id, ref, i + 1, Align((off + t[i].size) % 0x1_0000) % 0x1_0000)
  }

  /** A packed table is scanned to an entry already listed, or else to its end. */
  lemma {:induction false} ScanPacked(t: seq<Meta>, b: seq<Byte>, l: seq<Entry>, id: Id, ref: Id, i: nat)
    requires Holds(t, b, l) && i <= |l| && forall j | 0 <= j < i :: l[j].id != id || l[j].ref != ref
    ensures Start(l, i) < 0x1_0000
    ensures var s := Scan(t, id, ref, i, Start(l, i));
            if Listed(l, id, ref) then s.0 < |l| && l[s.0].id == id && l[s.0].ref == ref
            else s == (|l|, Start(l, |l|))
    decreases |l| - i
  {
    hide Align, Start, SlotHolds;
    if i < |l| {
      ScanStep(t, b, l, id, ref, i);
      if t[i].id != id || t[i].ref != ref {
        ScanPacked(t, b, l, id, ref, i + 1);
      }
    }
  }

  lemma ScanStep(t: seq<Meta>, b: seq<Byte>, l: seq<Entry>, id: Id, ref: Id, i: nat)
    requires Holds(t, b, l) && i < |l|
    ensures Start(l, i) <= Start(l, i + 1) < 0x1_0000 && t[i].id == l[i].id && t[i].ref == l[i].ref
    ensures t[i].id != id || t[i].ref != ref ==>
            Scan(t, id, ref, i, Start(l, i)) == Scan(t, id, ref, i + 1, Start(l, i + 1))
  {
    hide Align, Start;
    StartNext(l, i);
    if i + 1 < |l| {
      StartsRise(l, i + 1, |l|);
    }
    assert SlotHolds(t, b, l, i);
    StartAligned(l, i);
    NextOffset(Start(l, i), |l[i].data|);
  }

  lemma StartNext(l: seq<Entry>, i: nat)
    requires i < |l|
    ensures Start(l, i + 1) == Start(l, i) + Align(|l[i].data|)
  {
  }

  lemma NextOffset(off: nat, n: nat)
    requires off % 8 == 0 && off + Align(n) <= METADATA_BYTES
    ensures Align((off + n) % 0x1_0000) % 0x1_0000 == off + Align(n)
  {
  }

  /** A slot whose payload moved down. */
  function Lower(m: Meta, freed: nat): Meta
    requires freed <= m.offset
  {
    m.(offset := m.offset - freed)
  }

  /** The byte area while deleting: the payloads between at and k have moved, nothing else has changed. */
  ghost predicate Moved(b0: seq<Byte>, b: seq<Byte>, l: seq<Entry>, at: nat, k: nat)
    requires at < k <= |l|
  {
    var freed := Align(|l[at].data|);
    && |b0| == |b| == METADATA_BYTES
    && (forall y | 0 <= y < |b| && (y < Start(l, at) || Start(l, k) <= y) :: b[y] == b0[y])
    && (forall i | at < i < k :: Landed(b, l, i, freed))
  }

  ghost predicate Landed(b: seq<Byte>, l: seq<Entry>, i: nat, freed: nat)
    requires i < |l|
  {
    freed <= Start(l, i) && At(b, Start(l, i) - freed, Cut(l[i].data, freed))
  }

  ghost predicate MovedOne(b: seq<Byte>, c: seq<Byte>, off: nat, n: nat, freed: nat) {
    && |b| == |c| && freed <= off && off + n <= |b|
    && (forall y {:trigger c[y]} | 0 <= y < |b| ::
          c[y] == if off <= y < off + n then 0 else if off - freed <= y < off - freed + n then b[y + freed] else b[y])
  }

  lemma StillAt(b: seq<Byte>, c: seq<Byte>, off: nat, data: seq<Byte>)
    requires At(b, off, data) && |b| == |c| && forall y | off <= y < off + |data| :: c[y] == b[y]
    ensures At(c, off, data)
  {
  }

  lemma Lands(b: seq<Byte>, c: seq<Byte>, off: nat, data: seq<Byte>, freed: nat)
    requires MovedOne(b, c, off, |data|, freed) && At(b, off, data)
    ensures At(c, off - freed, Cut(data, freed))
  {
    var lo, n := off - freed, |data|;
    forall x | 0 <= x < n
      ensures c[lo..lo + n][x] == Cut(data, freed)[x]
    {
      assert b[off..off + n][x] == b[off + x];
      assert c[lo + x] == if x < freed then b[lo + x + freed] else 0;
    }
  }

  lemma StaysLanded(b: seq<Byte>, c: seq<Byte>, l: seq<Entry>, i: nat, k: nat, freed: nat)
    requires i < k < |l| && MovedOne(b, c, Start(l, k), |l[k].data|, freed) && Landed(b, l, i, freed)
    ensures Landed(c, l, i, freed)
  {
    hide Align, Start, Cut, At;
    StartsRise(l, i, k);
    StillAt(b, c, Start(l, i) - freed, Cut(l[i].data, freed));
  }

  lemma OutsideKept(b: seq<Byte>, c: seq<Byte>, off: nat, n: nat, freed: nat, y: nat)
    requires MovedOne(b, c, off, n, freed) && y < |b| && (y < off - freed || off + n <= y)
    ensures c[y] == b[y]
  {
  }

  lemma MovedOutside(b0: seq<Byte>, b: seq<Byte>, c: seq<Byte>, l: seq<Entry>, at: nat, k: nat)
    requires at < k < |l| && Moved(b0, b, l, at, k) && MovedOne(b, c, Start(l, k), |l[k].data|, Align(|l[at].data|))
    ensures |c| == |b|
    ensures forall y | 0 <= y < |c| && (y < Start(l, at) || Start(l, k + 1) <= y) :: c[y] == b0[y]
  {
    hide Align, Start, Landed;
    StartsRise(l, k, k + 1);
    StartsRise(l, at, k);
    forall y | 0 <= y < |c| && (y < Start(l, at) || Start(l, k + 1) <= y)
      ensures c[y] == b0[y]
    {
      OutsideKept(b, c, Start(l, k), |l[k].data|, Align(|l[at].data|), y);
    }
  }

  lemma MovedLands(b0: seq<Byte>, b: seq<Byte>, c: seq<Byte>, l: seq<Entry>, at: nat, k: nat)
    requires at < k < |l| && Moved(b0, b, l, at, k) && At(b0, Start(l, k), l[k].data)
    requires MovedOne(b, c, Start(l, k), |l[k].data|, Align(|l[at].data|))
    ensures Landed(c, l, k, Align(|l[at].data|))
  {
    hide Align, Start, Cut, At, Moved, MovedOne;
    StartsRise(l, at, k);
    NotMovedYet(b0, b, l, at, k);
    Lands(b, c, Start(l, k), l[k].data, Align(|l[at].data|));
  }

  lemma NotMovedYet(b0: seq<Byte>, b: seq<Byte>, l: seq<Entry>, at: nat, k: nat)
    requires at < k < |l| && Moved(b0, b, l, at, k) && At(b0, Start(l, k), l[k].data)
    ensures At(b, Start(l, k), l[k].data)
  {
    hide Align, Start, Landed;
    StillAt(b0, b, Start(l, k), l[k].data);
  }

  lemma MovedStep(b0: seq<Byte>, b: seq<Byte>, c: seq<Byte>, l: seq<Entry>, at: nat, k: nat)
    requires at < k < |l| && Moved(b0, b, l, at, k) && At(b0, Start(l, k), l[k].data)
    requires MovedOne(b, c, Start(l, k), |l[k].data|, Align(|l[at].data|))
    ensures Moved(b0, c, l, at, k + 1)
  {
    hide Align, Start, Cut, At, MovedOne, Landed;
    var freed := Align(|l[at].data|);
    MovedOutside(b0, b, c, l, at, k);
    MovedLands(b0, b, c, l, at, k);
    forall i | at < i < k
      ensures Landed(c, l, i, freed)
    {
      StaysLanded(b, c, l, i, k, freed);
    }
  }

  /** The table while deleting, with next slot k. */
  ghost predicate TableMoved(t0: seq<Meta>, t: seq<Meta>, at: nat, k: nat, freed: nat)
    requires |t0| == MAX_META && at < k <= |t0|
    requires forall j | at < j < k :: freed <= t0[j].offset
  {
    && |t| == |t0|
    && (forall j | 0 <= j < |t| && (j < at || k <= j) :: t[j] == t0[j])
    && (forall j | at < j < k :: t[j - 1] == Lower(t0[j], freed))
    && (at + 1 < k ==> t[k - 1] == t[k - 2])
    && (at + 1 == k ==> t[at] == t0[at])
  }

  lemma TableStep(t0: seq<Meta>, t: seq<Meta>, at: nat, k: nat, freed: nat)
    requires |t0| == MAX_META && at < k < |t0| && forall j | at < j < k + 1 :: freed <= t0[j].offset
    requires TableMoved(t0, t, at, k, freed)
    ensures t[k] == t0[k]
    ensures TableMoved(t0, t[k := Lower(t[k], freed)][k - 1 := Lower(t[k], freed)], at, k + 1, freed)
  {
  }

  lemma TableEnd(t0: seq<Meta>, t: seq<Meta>, at: nat, k: nat, freed: nat)
    requires |t0| == MAX_META && at < k <= |t0| && forall j | at < j < k :: freed <= t0[j].offset
    requires TableMoved(t0, t, at, k, freed)
    ensures forall j | 0 <= j < at :: t[j] == t0[j]
    ensures forall j | at < j < k :: t[j - 1] == Lower(t0[j], freed)
    ensures forall j | k <= j < |t| :: t[j] == t0[j]
    ensures t[k - 1] == if at + 1 == k then t0[at] else t[k - 2]
  {
  }

  lemma DeletedHolds(t0: seq<Meta>, b0: seq<Byte>, t: seq<Meta>, b: seq<Byte>, l: seq<Entry>, at: nat)
    requires Holds(t0, b0, l) && at < |l| && Moved(b0, b, l, at, |l|) && |t| == |t0|
    requires forall j | at < j < |l| :: Align(|l[at].data|) <= t0[j].offset
    requires forall j | 0 <= j < at :: t[j] == t0[j]
    requires forall j | at < j < |l| :: t[j - 1] == Lower(t0[j], Align(|l[at].data|))
    ensures forall i | 0 <= i < |l| - 1 :: SlotHolds(t, b, Deleted(l, at), i)
  {
    hide Align, Start, Deleted, Cut, ListOk, At;
    var d, freed := Deleted(l, at), Align(|l[at].data|);
    forall i | 0 <= i < |l| - 1
      ensures SlotHolds(t, b, d, i)
    {
      DeletedAt(l, at, i);
      if i < at {
        assert SlotHolds(t0, b0, l, i);
        StartsRise(l, i, at);
        StillAt(b0, b, Start(l, i), l[i].data);
      } else {
        assert SlotHolds(t0, b0, l, i + 1);
        assert t[i + 1 - 1] == Lower(t0[i + 1], freed);
        assert Landed(b, l, i + 1, freed);
      }
    }
  }

  lemma DeletedAt(l: seq<Entry>, at: nat, i: nat)
    requires at < |l| && i < |l| - 1
    ensures i < at ==> Deleted(l, at)[i] == l[i] && Start(Deleted(l, at), i) == Start(l, i)
    ensures at <= i ==> Deleted(l, at)[i] == CutEntry(l, at, i + 1)
    ensures at <= i ==> Start(Deleted(l, at), i) == Start(l, i + 1) - Align(|l[at].data|)
  {
    hide Align, Start;
    if i < at {
      StartSame(l, Deleted(l, at), i);
    } else {
      StartDeleted(l, at, i + 1);
    }
  }

  class Header {
    const meta: array<Meta>
    const parts: array<Part>
    const metadata: array<Byte>
    var magic: nat
    var hashKind: nat
    var signatureKind: nat
    var alignment: nat

    ghost predicate Shape()
      reads this
    {
      meta.Length == MAX_META && parts.Length == MAX_PARTS && metadata.Length == METADATA_BYTES
    }

    ghost predicate Has(l: seq<Entry>)
      reads this, meta, metadata
    {
      Shape() && Holds(meta[..], metadata[..], l)
    }

    constructor ()
      ensures Has([]) && fresh(meta) && fresh(parts) && fresh(metadata)
      ensures forall i | 0 <= i < MAX_PARTS :: parts[i] == NO_PART
      ensures forall i | 0 <= i < METADATA_BYTES :: metadata[i] == 0
      ensures magic == MAGIC && hashKind == 1 && signatureKind == 2 && alignment == 512
    {
      magic, hashKind, signatureKind, alignment := MAGIC, 1, 2, 512;
      meta := new Meta[32](_ => FREE);
      parts := new Part[32](_ => NO_PART);
      metadata := new Byte[1920](_ => 0);
    }

    method GetMeta(id: Id, ref: Id) returns (rc: Code, at: nat)
      requires Shape()
      ensures rc == Ok <==> exists i :: 0 <= i < 32 && meta[i].id == id && meta[i].ref == ref
      ensures rc == Ok ==> at < 32 && meta[at].id == id && meta[at].ref == ref
      ensures rc == Ok ==> forall i | 0 <= i < at :: meta[i].id != id || meta[i].ref != ref
      ensures rc != Ok ==> rc == NotFound
    {
      at := 0;
      while at < 32
        invariant at <= 32
        invariant forall i | 0 <= i < at :: meta[i].id != id || meta[i].ref != ref
      {
        if meta[at].id == id {
          if meta[at].ref == ref {
            return Ok, at;
          }
        }
        at := at + 1;
      }
      rc := NotFound;
    }

    /** For every header, packed or not: the slot found by the scan is filled even when the entry then turns out
        not to fit. */
    method AddMeta(id: Id, ref: Id, size: Half) returns (rc: Code, at: nat)
      requires Shape()
      modifies meta
      ensures var s := Scan(old(meta[..]), id, ref, 0, 0);
              at == s.0 &&
              if at == 32 then rc == NoSpaceLeft && meta[..] == old(meta[..])
              else if old(meta[at]).id != 0 then rc == Exists && meta[..] == old(meta[..])
              else rc == (if s.1 + size > METADATA_BYTES then NoSpaceLeft else Ok)
                   && meta[..] == old(meta[..])[at := Meta(id, size, s.1, ref)]
    {
      var newOffset: Half := 0;
      at := 0;
      while at < 32
        invariant at <= 32 && meta[..] == old(meta[..])
        invariant Scan(meta[..], id, ref, 0, 0) == Scan(meta[..], id, ref, at, newOffset)
      {
        if meta[at].id == 0 {
          meta[at] := Meta(id, size, newOffset, ref);
          if newOffset + size > METADATA_BYTES {
            return NoSpaceLeft, at;
          }
          return Ok, at;
        } else if meta[at].id == id && meta[at].ref == ref {
          return Exists, at;
        }
        newOffset := (newOffset + meta[at].size) % 0x1_0000;
        newOffset := Align(newOffset) % 0x1_0000;
        at := at + 1;
      }
      rc := NoSpaceLeft;
    }

    /** Add an entry to a packed table and store its payload. The entry is refused exactly when it is listed
        already, when the table is full or when its bytes do not fit; in the last case the table is ruined. */
    method Add(id: Id, ref: Id, data: seq<Byte>, ghost l: seq<Entry>) returns (rc: Code)
      requires Has(l) && |data| < 0x1_0000 && id != 0
      modifies meta, metadata
      ensures rc == Exists <==> Listed(l, id, ref)
      ensures rc == Ok <==> !Listed(l, id, ref) && |l| < 32 && Start(l, |l|) + |data| <= METADATA_BYTES
      ensures rc == Ok ==> Has(l + [Entry(id, ref, data)])
      ensures rc == Exists || |l| == 32 ==> Has(l)
      ensures rc == NoSpaceLeft && |l| < 32 ==> forall m :: !Has(m)
    {
      hide Align, Start, ListOk, SlotHolds, Listed, Scan, At;
      ghost var t0, b0 := meta[..], metadata[..];
      ScanPacked(t0, b0, l, id, ref, 0);
      Sized(t0, b0, l);
      var at;
      rc, at := AddMeta(id, ref, |data|);
      if rc == Ok {
        var off := meta[at].offset;
        forall y | off <= y < off + |data| {
          metadata[y] := data[y - off];
        }
        Appended(t0, b0, l, Entry(id, ref, data), meta[..], metadata[..]);
      } else if rc == NoSpaceLeft && at < 32 {
        forall m {
          UsedSlotFits(meta[..], metadata[..], m, at);
        }
      }
    }

    method MemMove(dst: nat, src: nat, n: nat)
      requires Shape() && dst + n <= 1920 && src + n <= 1920
      modifies metadata
      ensures forall y {:trigger metadata[y]} | 0 <= y < 1920 ::
                metadata[y] == if dst <= y < dst + n then old(metadata[y - dst + src]) else old(metadata[y])
    {
      forall y | dst <= y < dst + n {
        metadata[y] := metadata[y - dst + src];
      }
    }

    method MemClear(at: nat, n: nat)
      requires Shape() && at + n <= 1920
      modifies metadata
      ensures forall y {:trigger metadata[y]} | 0 <= y < 1920 ::
                metadata[y] == if at <= y < at + n then 0 else old(metadata[y])
    {
      forall y | at <= y < at + n {
        metadata[y] := 0;
      }
    }

    method MovePayload(off: nat, freed: nat, n: nat)
      requires Shape() && freed <= off && off + n <= 1920
      modifies metadata
      ensures MovedOne(old(metadata[..]), metadata[..], off, n, freed)
    {
      MemMove(off - freed, off, n);
      MemClear(off, n);
    }

    /** Deleting from a table that is not full leaves the table of the remaining entries. In a full table the last
        slot is not freed: its entry stays listed (twice, so that the table is ruined, unless it was the one to
        delete) and the first part header, which follows the table, is wiped instead. */
    method DelMeta(at: nat, ghost l: seq<Entry>)
      requires Has(l) && at < |l|
      modifies meta, metadata, parts
      ensures |l| < 32 ==> Has(Deleted(l, at)) && parts[..] == old(parts[..])
      ensures |l| == 32 ==> parts[..] == old(parts[..])[0 := Wiped(old(parts[0]))]
      ensures |l| == 32 ==> forall i | 0 <= i < 31 :: SlotHolds(meta[..], metadata[..], Deleted(l, at), i)
      ensures |l| == 32 ==> meta[31] == if at == 31 then old(meta[31]) else meta[30]
      ensures |l| == 32 && at < 31 ==> forall m :: !Has(m)
    {
      hide Align, Start, Cut, Deleted, ListOk, Moved, MovedOne, TableMoved, SlotHolds, Holds, At;
      ghost var t0, b0 := meta[..], metadata[..];
      ghost var big := Align(|l[at].data|);
      SlotFacts(t0, b0, l, at);
      var freed := Align(meta[at].size) % 0x1_0000;
      var m, next := at, at + 1;
      MovedStart(b0, l, at);
      TableStart(t0, at, big);
      while m != 31
        invariant m == next - 1 && at < next <= |l|
        invariant parts[..] == old(parts[..])
        invariant TableMoved(t0, meta[..], at, next, big)
        invariant Moved(b0, metadata[..], l, at, next)
        decreases 32 - next
      {
        ghost var t, b := meta[..], metadata[..];
        TableEnd(t0, t, at, next, big);
        if meta[next].id != 0 {
          SlotAt(t0, b0, l, next);
          MovePayload(meta[next].offset, freed, meta[next].size);
          MovedStep(b0, b, metadata[..], l, at, next);
          meta[next] := meta[next].(offset := meta[next].offset - freed);
          TableStep(t0, t, at, next, big);
        }
        meta[m] := meta[next];
        if meta[m].id == 0 {
          assert forall j | 0 <= j < at :: meta[j] == t0[j];
          assert forall j | at < j < |l| :: meta[j - 1] == Lower(t0[j], big);
          break;
        }
        m := next;
        next := next + 1;
      }
      if m == 31 {
        TableEnd(t0, meta[..], at, next, big);
      }
      if next < 32 {
        meta[next] := FREE;
      } else {
        parts[0] := Wiped(parts[0]);
      }
      DeletedHolds(t0, b0, meta[..], metadata[..], l, at);
      DeletedOk(l, at);
      if |l| < 32 {
        assert forall i | |l| - 1 <= i < 32 :: meta[i].id == 0;
        NowHolds(meta[..], metadata[..], Deleted(l, at));
      } else {
        forall m {
          UsedSlotsDiffer(meta[..], metadata[..], m, 30, 31);
        }
      }
    }

    /** The new part takes over whatever else is in the first free slot. */
    method AddPart(id: Id) returns (rc: Code, at: nat)
      requires Shape() && id != 0
      modifies parts
      ensures var l := Listing(old(parts[..]));
              if exists p :: p in l && p.id == id then rc == Exists && parts[..] == old(parts[..])
              else if |l| == 32 then rc == NoSpaceLeft && parts[..] == old(parts[..])
              else rc == Ok && at == |l| && l + [old(parts[at]).(id := id)] <= Listing(parts[..])
                   && forall i | 0 <= i < 32 && i != at :: parts[i] == old(parts[i])
    {
      ghost var l := Listing(parts[..]);
      at := 0;
      while at < 32
        invariant at <= |l| <= 32 && parts[..] == old(parts[..])
        invariant forall i | 0 <= i < at :: l[i].id != id
      {
        if parts[at].id == 0 {
          parts[at] := parts[at].(id := id);
          ListingGrows(old(parts[..]), parts[..], at);
          return Ok, at;
        } else if parts[at].id == id {
          assert l[at] in l;
          return Exists, at;
        }
        at := at + 1;
      }
      rc := NoSpaceLeft;
    }

    /** Unlike the metadata table, a full part table is handled too. */
    method DelPart(at: nat)
      requires Shape() && at < |Listing(parts[..])|
      modifies parts
      ensures Listing(parts[..]) == old(Listing(parts[..]))[..at] + old(Listing(parts[..]))[at + 1..]
    {
      ghost var p0, l := parts[..], Listing(parts[..]);
      var part := at;
      while part != 31
        invariant at <= part < |l|
        invariant forall i | 0 <= i < 32 && (i < at || part <= i) :: parts[i] == p0[i]
        invariant forall i | at <= i < part :: parts[i] == p0[i + 1]
        decreases 32 - part
      {
        parts[part] := parts[part + 1];
        if parts[part].id == 0 {
          break;
        }
        part := part + 1;
      }
      assert part == |l| - 1;
      parts[part] := NO_PART;
      var r := l[..at] + l[at + 1..];
      forall i | 0 <= i < |r|
        ensures parts[..][i] == r[i] && r[i].id != 0
      {
        assert r[i] in l;
      }
      ListingIs(parts[..], r);
    }
  }

  lemma Sized(t: seq<Meta>, b: seq<Byte>, l: seq<Entry>)
    requires Holds(t, b, l)
    ensures |l| <= 32 && Start(l, 0) == 0
    ensures forall j | 0 <= j < 32 :: t[j].id == 0 <==> |l| <= j
  {
    hide Start, At;
    if l != [] {
      SlotFacts(t, b, l, 0);
    }
    StartZero(l);
  }

  lemma StartZero(l: seq<Entry>)
    ensures Start(l, 0) == 0
  {
  }

  lemma Appended(t0: seq<Meta>, b0: seq<Byte>, l: seq<Entry>, e: Entry, t: seq<Meta>, b: seq<Byte>)
    requires Holds(t0, b0, l) && |l| < 32 && e.id != 0 && !Listed(l, e.id, e.ref) && |e.data| < 0x1_0000
    requires Start(l, |l|) + |e.data| <= METADATA_BYTES
    requires t == t0[|l| := Meta(e.id, |e.data|, Start(l, |l|), e.ref)] && |b| == |b0|
    requires forall y | 0 <= y < |b| :: b[y] == if Start(l, |l|) <= y < Start(l, |l|) + |e.data|
                                               then e.data[y - Start(l, |l|)] else b0[y]
    ensures Holds(t, b, l + [e])
  {
    hide Align, Start;
    var m, n := l + [e], |l|;
    forall i | 0 <= i <= n
      ensures SlotHolds(t, b, m, i)
    {
      StartSame(l, m, i);
      if i < n {
        assert SlotHolds(t0, b0, l, i);
        StartsRise(l, i, n);
        StillAt(b0, b, Start(l, i), l[i].data);
      }
    }
    StartSame(l, m, n);
    StartNext(m, n);
    StartAligned(l, n);
    AlignFits(Start(l, n), |e.data|);
  }

  lemma AlignFits(off: nat, n: nat)
    requires off % 8 == 0 && off + n <= METADATA_BYTES
    ensures off + Align(n) <= METADATA_BYTES
  {
  }

  lemma UsedSlotFits(t: seq<Meta>, b: seq<Byte>, m: seq<Entry>, i: nat)
    ensures Holds(t, b, m) && i < |t| && t[i].id != 0 ==> t[i].offset + t[i].size <= METADATA_BYTES
  {
    hide Start, ListOk;
    if Holds(t, b, m) && i < |m| {
      assert SlotHolds(t, b, m, i);
    }
  }

  lemma UsedSlotsDiffer(t: seq<Meta>, b: seq<Byte>, m: seq<Entry>, i: nat, j: nat)
    ensures Holds(t, b, m) && i < j < |t| && t[i].id != 0 && t[j].id != 0 ==> t[i] != t[j]
  {
    hide Start;
    if Holds(t, b, m) && i < j < |m| {
      assert SlotHolds(t, b, m, i) && SlotHolds(t, b, m, j);
    }
  }

  // ---- parts ----

  /** The leading entries of a part table, up to the first free one. */
  function Listing(parts: seq<Part>): (l: seq<Part>)
    ensures l <= parts && (forall p | p in l :: p.id != 0)
    ensures |l| < |parts| ==> parts[|l|].id == 0
  {
    if parts == [] || parts[0].id == 0 then [] else [parts[0]] + Listing(parts[1..])
  }

  lemma {:induction false} ListingIs(parts: seq<Part>, l: seq<Part>)
    requires l <= parts && (forall p | p in l :: p.id != 0) && (|l| < |parts| ==> parts[|l|].id == 0)
    ensures Listing(parts) == l
  {
    if l != [] {
      assert l == [l[0]] + l[1..];
      forall p | p in l[1..]
        ensures p.id != 0
      {
        assert p in l;
      }
      ListingIs(parts[1..], l[1..]);
    }
  }

  lemma ListingGrows(p: seq<Part>, q: seq<Part>, at: nat)
    requires |p| == |q| && at == |Listing(p)| < |p| && q == p[at := q[at]] && q[at].id != 0
    ensures Listing(p) + [q[at]] <= Listing(q)
  {
    var m := Listing(q);
    assert |m| > at;
    assert m[..at + 1] == q[..at + 1] == Listing(p) + [q[at]];
  }

  // ---- whole runs ----

  datatype Op = Add(id: Id, ref: Id, data: seq<Byte>) | Del(at: nat)

  /** An add that will be accepted, or a delete from a table that is not full that loses no payload. */
  ghost predicate Fits(l: seq<Entry>, op: Op) {
    match op
    case Add(id, ref, data) =>
      id != 0 && !Listed(l, id, ref) && |l| < 32 && Start(l, |l|) + |data| <= METADATA_BYTES
    case Del(at) => at < |l| < 32 && Removable(l, at)
  }

  function After(l: seq<Entry>, op: Op): seq<Entry> {
    match op
    case Add(id, ref, data) => l + [Entry(id, ref, data)]
    case Del(at) => if at < |l| then Removed(l, at) else l
  }

  function AfterAll(ops: seq<Op>): seq<Entry> {
    if ops == [] then [] else After(AfterAll(ops[..|ops| - 1]), ops[|ops| - 1])
  }

  ghost predicate AllFit(ops: seq<Op>) {
    forall n | 0 <= n < |ops| :: Fits(AfterAll(ops[..n]), ops[n])
  }

  /** A header is a faithful store: after any such run of adds and deletes it holds exactly the entries added and
      not deleted, in order, and a lookup gives back the very bytes that were stored. */
  method Replay(ops: seq<Op>, id: Id, ref: Id) returns (found: bool, data: seq<Byte>)
    requires AllFit(ops) && id != 0
    ensures found <==> Listed(AfterAll(ops), id, ref)
    ensures found ==> Entry(id, ref, data) in AfterAll(ops)
  {
    hide Holds, Start, Removable, Listed, ListOk, Deleted, Removed;
    var h := new Header();
    var n := 0;
    while n < |ops|
      invariant 0 <= n <= |ops| && h.Has(AfterAll(ops[..n])) && fresh(h.meta) && fresh(h.parts) && fresh(h.metadata)
    {
      ghost var l := AfterAll(ops[..n]);
      assert Fits(l, ops[n]);
      assert ops[..n + 1][..n] == ops[..n];
      match ops[n] {
        case Add(i, r, d) =>
          var _ := h.Add(i, r, d, l);
        case Del(at) =>
          DeletedIsRemoved(l, at);
          h.DelMeta(at, l);
      }
      n := n + 1;
    }
    assert ops[..n] == ops;
    ghost var l := AfterAll(ops);
    var rc, at := h.GetMeta(id, ref);
    FoundIsListed(h.meta[..], h.metadata[..], l, id, ref);
    found, data := rc == Ok, [];
    if found {
      data := h.metadata[h.meta[at].offset..h.meta[at].offset + h.meta[at].size];
    }
  }

  /** In a packed table, finding a slot and being listed are the same, and the slot leads to the payload. */
  lemma FoundIsListed(t: seq<Meta>, b: seq<Byte>, l: seq<Entry>, id: Id, ref: Id)
    requires Holds(t, b, l) && id != 0
    ensures (exists i :: 0 <= i < 32 && t[i].id == id && t[i].ref == ref) <==> Listed(l, id, ref)
    ensures forall i | 0 <= i < 32 && t[i].id == id && t[i].ref == ref ::
              t[i].offset + t[i].size <= |b| && Entry(id, ref, b[t[i].offset..t[i].offset + t[i].size]) in l
  {
    hide Start, ListOk;
    forall i | 0 <= i < |l|
      ensures i < 32 && t[i].id == l[i].id && t[i].ref == l[i].ref && t[i].offset + t[i].size <= |b|
      ensures b[t[i].offset..t[i].offset + t[i].size] == l[i].data
    {
      assert SlotHolds(t, b, l, i);
    }
    forall i | 0 <= i < 32 && t[i].id == id && t[i].ref == ref
      ensures t[i].offset + t[i].size <= |b| && Entry(id, ref, b[t[i].offset..t[i].offset + t[i].size]) in l
    {
      assert i < |l|;
      assert l[i] == Entry(id, ref, b[t[i].offset..t[i].offset + t[i].size]);
    }
    if Listed(l, id, ref) {
      var i :| 0 <= i < |l| && l[i].id == id && l[i].ref == ref;
      assert t[i].id == id && t[i].ref == ref;
    }
  }

  lemma NowHolds(t: seq<Meta>, b: seq<Byte>, l: seq<Entry>)
    requires |t| == 32 && |b| == 1920 && ListOk(l)
    requires forall i | 0 <= i < |l| :: SlotHolds(t, b, l, i)
    requires forall i | |l| <= i < |t| :: t[i].id == 0
    ensures Holds(t, b, l)
  {
  }

  lemma TableStart(t: seq<Meta>, at: nat, freed: nat)
    requires |t| == MAX_META && at < |t|
    ensures TableMoved(t, t, at, at + 1, freed)
  {
  }

  /** What a packed table says of the slots from at on. */
  lemma SlotFacts(t: seq<Meta>, b: seq<Byte>, l: seq<Entry>, at: nat)
    requires Holds(t, b, l) && at < |l|
    ensures ListOk(l) && |l| <= |t| == 32 && Align(|l[at].data|) == Align(t[at].size) % 0x1_0000
    ensures forall j | at < j < |l| :: Align(|l[at].data|) <= t[j].offset
    ensures forall j | 0 <= j < 32 :: t[j].id == 0 <==> |l| <= j
  {
    hide Align, Start;
    StartsRise(l, at, |l|);
    assert SlotHolds(t, b, l, at);
    forall j | at < j < |l|
      ensures Align(|l[at].data|) <= t[j].offset
    {
      assert SlotHolds(t, b, l, j);
      StartsRise(l, at, j);
    }
    forall j | 0 <= j < |l|
      ensures t[j].id != 0
    {
      assert SlotHolds(t, b, l, j);
    }
  }

  lemma SlotAt(t: seq<Meta>, b: seq<Byte>, l: seq<Entry>, i: nat)
    requires Holds(t, b, l) && i < |l|
    ensures i < 32 && t[i].offset == Start(l, i) && t[i].size == |l[i].data| && t[i].offset + t[i].size <= 1920
    ensures At(b, Start(l, i), l[i].data)
  {
    hide Start, At;
    assert SlotHolds(t, b, l, i);
  }

  lemma MovedStart(b: seq<Byte>, l: seq<Entry>, at: nat)
    requires |b| == METADATA_BYTES && at < |l|
    ensures Moved(b, b, l, at, at + 1)
  {
  }

  /** A part header whose first 16 bytes were cleared: id, size and the low half of the offset. */
  function Wiped(p: Part): Part {
    p.(id := 0, size := 0, offset := p.offset / 0x1_0000_0000 * 0x1_0000_0000)
  }
}
