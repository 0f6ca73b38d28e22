/** Memory, block devices and the asynchronous hash driver as src/boot/image_helpers.c and src/cm/cm_main.c use them.
    The driver owns at most one outstanding range of memory and hashes it whenever it likes, piece by piece, while
    the program goes on; a further update, or asking for the digest, waits for it (include/pb/crypto.h). */
module Machine {
  import opened Basics

  /** A partition of whole blocks; reads that start at a bad block fail. */
  datatype Device = Device(data: seq<Byte>, block: nat, bad: set<nat>)

  function Blocks(n: nat, block: nat): (k: nat)
    requires block > 0
    ensures k * block >= n && (n % block == 0 ==> k * block == n)
  {
    DivUp(n, block);
    n / block + if n % block != 0 then 1 else 0
  }

  lemma DivUp(n: nat, block: nat)
    requires block > 0
    ensures n % block == 0 ==> n / block * block == n
    ensures (n / block + 1) * block >= n
  {
    assert n == n / block * block + n % block;
    assert (n / block + 1) * block == n / block * block + block;
  }

  /** The range check of a partition: the blocks touched must end inside it. */
  predicate InRange(dev: Device, lba: nat, n: nat) {
    dev.block > 0 && lba * dev.block + Blocks(n, dev.block) * dev.block <= |dev.data|
  }

  predicate Readable(dev: Device, lba: nat, n: nat) { InRange(dev, lba, n) && lba !in dev.bad }

  class Board {
    const ram: array<Byte>
    var hashed: seq<Byte>
    var addr: nat
    var left: nat

    constructor (size: nat)
      ensures fresh(ram) && ram.Length == size && Ok() && Fed() == [] && left == 0
    {
      ram := new Byte[size];
      hashed, addr, left := [], 0, 0;
    }

    ghost predicate Ok()
      reads this
    {
      addr + left <= ram.Length
    }

    /** What the digest will be taken of: the bytes hashed and, as they are now, those still outstanding. A driver
        that hashes at once has hashed exactly this. */
    ghost function Fed(): seq<Byte>
      requires Ok()
      reads this, ram
    {
      hashed + ram[addr..addr + left]
    }

    /** The outstanding range shares no byte with a window. */
    ghost predicate Clear(at: nat, n: nat)
      reads this
    {
      left == 0 || n == 0 || addr + left <= at || at + n <= addr
    }

    /** The driver gets on with its work, as far as it pleases. */
    method Drift()
      requires Ok()
      modifies `hashed, `addr, `left
      ensures Ok() && Fed() == old(Fed())
      ensures old(addr) <= addr && addr + left == old(addr + left)
    {
      var n: nat :| n <= left;
      assert ram[addr..addr + left] == ram[addr..addr + n] + ram[addr + n..addr + left];
      hashed := hashed + ram[addr..addr + n];
      addr, left := addr + n, left - n;
    }

    method Init()
      modifies `hashed, `addr, `left
      ensures Ok() && Fed() == [] && left == 0
    {
      hashed, addr, left := [], 0, 0;
    }

    method UpdateAsync(at: nat, n: nat)
      requires Ok() && at + n <= ram.Length
      modifies `hashed, `addr, `left
      ensures Ok() && Fed() == old(Fed()) + ram[at..at + n]
      ensures addr == at && left == n
    {
      hashed := hashed + ram[addr..addr + left];
      addr, left := at, n;
    }

    method Final(ghost all: seq<Byte>) returns (input: seq<Byte>)
      requires Ok() && Fed() == all
      modifies `hashed, `addr, `left
      ensures Ok() && left == 0 && input == all
    {
      hashed := hashed + ram[addr..addr + left];
      left := 0;
      input := hashed;
    }

    method Store(at: nat, v: Byte)
      requires Ok() && at < ram.Length && Clear(at, 1)
      modifies ram
      ensures Fed() == old(Fed()) && ram[..] == old(ram[..])[at := v]
    {
      ghost var rest := ram[addr..addr + left];
      ram[at] := v;
      assert ram[addr..addr + left] == rest;
    }

    /** The first upto bytes of a transfer land in memory one by one while the driver drifts. As long as the
        outstanding range is clear of the window, nothing the driver has been given changes. */
    method Transfer(data: seq<Byte>, from: nat, upto: nat, n: nat, at: nat)
      requires Ok() && at + n <= ram.Length && Clear(at, n) && upto <= n && from + n <= |data|
      modifies this, ram
      ensures Ok() && Fed() == old(Fed())
      ensures old(addr) <= addr && addr + left == old(addr + left)
      ensures Changed(old(ram[..]), ram[..], at, n)
      ensures Window(ram[..], at, upto) == data[from..from + upto]
    {
      hide Fed, Window, Changed;
      var i := 0;
      NotChanged(ram[..], at, n);
      EmptyWindow(ram[..], at, data, from);
      while i < upto
        invariant 0 <= i <= upto && Ok() && Clear(at, n) && Fed() == old(Fed())
        invariant old(addr) <= addr && addr + left == old(addr + left)
        invariant Window(ram[..], at, i) == data[from..from + i]
        invariant Changed(old(ram[..]), ram[..], at, n)
      {
        WindowGrows(ram[..], at, i, data, from);
        OneMore(old(ram[..]), ram[..], at, n, at + i, data[from + i]);
        Store(at + i, data[from + i]);
        Drift();
        i := i + 1;
      }
    }

    /** A read either delivers all its blocks or fails, having transferred any part of them. */
    method Read(dev: Device, lba: nat, n: nat, at: nat) returns (ok: bool)
      requires Ok() && at + n <= ram.Length && Clear(at, n)
      modifies this, ram
      ensures Ok() && Fed() == old(Fed())
      ensures old(addr) <= addr && addr + left == old(addr + left)
      ensures ok <==> Readable(dev, lba, n)
      ensures Changed(old(ram[..]), ram[..], at, n)
      ensures ok ==> lba * dev.block + n <= |dev.data|
                     && Window(ram[..], at, n) == dev.data[lba * dev.block..lba * dev.block + n]
    {
      hide InRange, Fed, Window, Changed;
      if !InRange(dev, lba, n) {
        NotChanged(ram[..], at, n);
        return false;
      }
      RangeHolds(dev, lba, n);
      var upto := n;
      if lba in dev.bad {
        upto :| 0 <= upto <= n;
      }
      Transfer(dev.data, lba * dev.block, upto, n, at);
      ok := lba !in dev.bad;
    }
  }

  function Window(ram: seq<Byte>, at: nat, n: nat): (w: seq<Byte>)
    requires at + n <= |ram|
    ensures |w| == n
  {
    ram[at..at + n]
  }

  /** Only bytes of the window at..at + n differ. */
  ghost predicate Changed(before: seq<Byte>, after: seq<Byte>, at: nat, n: nat) {
    |before| == |after| && forall y | 0 <= y < |before| && !(at <= y < at + n) :: after[y] == before[y]
  }

  lemma NotChanged(ram: seq<Byte>, at: nat, n: nat)
    ensures Changed(ram, ram, at, n)
  {
  }

  lemma OneMore(before: seq<Byte>, after: seq<Byte>, at: nat, n: nat, y: nat, v: Byte)
    requires Changed(before, after, at, n) && at <= y < at + n && y < |after|
    ensures Changed(before, after[y := v], at, n)
  {
  }

  lemma EmptyWindow(ram: seq<Byte>, at: nat, data: seq<Byte>, from: nat)
    requires at <= |ram| && from <= |data|
    ensures Window(ram, at, 0) == data[from..from + 0]
  {
  }

  lemma WindowGrows(ram: seq<Byte>, at: nat, i: nat, data: seq<Byte>, from: nat)
    requires at + i < |ram| && from + i < |data| && Window(ram, at, i) == data[from..from + i]
    ensures Window(ram[at + i := data[from + i]], at, i + 1) == data[from..from + i + 1]
  {
    assert ram[at + i := data[from + i]][at..at + i + 1] == ram[at..at + i] + [data[from + i]];
    assert data[from..from + i + 1] == data[from..from + i] + [data[from + i]];
  }

  lemma RangeHolds(dev: Device, lba: nat, n: nat)
    requires InRange(dev, lba, n)
    ensures lba * dev.block + n <= |dev.data|
  {
  }
}
