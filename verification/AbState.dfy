/** A/B boot selection with two stored copies of the boot state (src/boot/ab_state.c): the module's own
    code as a class, and the decision it makes as one symmetric function. */
module AbState {
  import opened Basics
  import opened StateBlob

  datatype Sys = SysA | SysB {
    function Other(): Sys {
      if this == SysA then SysB else SysA
    }

    /** The bit that stands for this system in the enable, verified and error words. */
    function Bit(): u32 {
      if this == SysA then 1 else 2
    }
  }

  datatype Mode = Normal | Speculative

  datatype Result = Boot(sys: Sys) | NoActivePartition | RollbackRefused | WriteError

  predicate HasBit(w: u32, x: Sys) {
    if x == SysA then w % 2 == 1 else w / 2 % 2 == 1
  }

  predicate Verified(s: BootState, x: Sys) { HasBit(s.verified, x) }

  /** The system the source looks at first: A wins when both are enabled. */
  function Active(s: BootState): Option<Sys> {
    if HasBit(s.enable, SysA) then Some(SysA) else if HasBit(s.enable, SysB) then Some(SysB) else None
  }

  datatype Decision = Decision(result: Result, state: BootState, commit: bool)

  /** What boot_ab_state_get decides, written once for either system. */
  function Decide(mode: Mode, s: BootState): Decision {
    match Active(s)
    case None => Decision(NoActivePartition, s, false)
    case Some(x) =>
      var y := x.Other();
      if Verified(s, x) then Decision(Boot(x), s, false)
      else if s.remaining > 0 then Decision(Boot(x), s.(remaining := s.remaining - 1), true)
      else if Verified(s, y) then Decision(Boot(y), s.(enable := y.Bit(), error := x.Bit()), true)
      else if mode == Speculative then
        Decision(Boot(y), s.(enable := y.Bit(), error := x.Bit(), remaining := 1), true)
      else Decision(RollbackRefused, s, false)
  }

  function Defaults(): BootState { Cleared().(magic := MAGIC) }

  // ---- the two stored copies ----

  datatype Disk = Disk(primary: BootState, backup: BootState)

  /** How a commit's two writes end: both done, or one of them leaves other content behind. */
  datatype Fault = NoFault | PrimaryFault(left: BootState) | BackupFault(left: BootState)

  function Written(d: Disk, s: BootState, f: Fault): Disk {
    match f
    case NoFault => Disk(Seal(s), Seal(s))
    case PrimaryFault(left) => Disk(left, d.backup)
    case BackupFault(left) => Disk(Seal(s), left)
  }

  predicate NeedsRepair(d: Disk) { !Valid(d.primary) || !Valid(d.backup) }

  /** The state initialisation works on: the primary if it is valid, else the backup, else defaults. */
  function Recovered(d: Disk): BootState {
    if Valid(d.primary) then Unsealed(d.primary)
    else if Valid(d.backup) then Unsealed(d.backup)
    else Defaults()
  }

  /** Whatever the copies hold, what is loaded is the primary up to its checksum if that is valid, else the backup if
      that is, and otherwise a state in which nothing is enabled, so that nothing boots before an activation. */
  lemma FirstValidCopy(d: Disk, mode: Mode)
    ensures Valid(d.primary) ==> Seal(Recovered(d)) == d.primary
    ensures !Valid(d.primary) && Valid(d.backup) ==> Seal(Recovered(d)) == d.backup
    ensures !Valid(d.primary) && !Valid(d.backup) ==>
              var s := Recovered(d);
              && s.magic == 0x026d4a65 && s.enable == s.verified == s.remaining == s.error == 0
              && (forall j | 0 <= j < 4 :: s.regs[j] == 0) && Decide(mode, s).result == NoActivePartition
  {
    hide Seal, Unsealed, Valid, Checksum;
    if Valid(d.primary) {
      SealOfUnsealed(d.primary);
    } else if Valid(d.backup) {
      SealOfUnsealed(d.backup);
    }
  }

  /** What initialisation can get at: the partitions of the two systems, and the two copies of the state. */
  datatype Access = Access(sysA: bool, sysB: bool, primary: bool, backup: bool)

  const EVERYTHING := Access(true, true, true, true)

  /** The copies as read: one that cannot be read leaves the memory for it as start-up left it, cleared. */
  function AsRead(d: Disk, a: Access): (r: Disk)
    ensures a == EVERYTHING ==> r == d
  {
    Disk(if a.primary then d.primary else Cleared(), if a.backup then d.backup else Cleared())
  }

  /** The partition an activation names. */
  datatype Target = Part(sys: Sys) | NullPart | UnknownPart

  function Activated(s: BootState, t: Target): BootState {
    var bits := if t.Part? then t.sys.Bit() else 0;
    s.(enable := bits, verified := bits, error := 0)
  }

  function WithReg(s: BootState, index: nat, value: u32): BootState
    requires index < 4
  {
    s.(regs := s.regs[4 - index - 1 := value])
  }

  function ReadReg(s: BootState, index: nat): u32
    requires index < 4
  {
    s.regs[4 - index - 1]
  }

  /** A register that was written is read back and the others are left alone; registers count down from the end of the
      blob, so that more of them can be added in front. */
  lemma RegisterReadBack(s: BootState, index: nat, value: u32, other: nat)
    requires index < 4 && other < 4
    ensures ReadReg(WithReg(s, index, value), other) == if other == index then value else ReadReg(s, other)
    ensures WordAt(Encode(WithReg(s, index, value)), 504 - 4 * index) == value as int
    ensures forall at | 0 <= at < 508 && !(504 - 4 * index <= at < 508 - 4 * index) ::
              Encode(WithReg(s, index, value))[at] == Encode(s)[at]
  {
    hide Le32, WordAt, CrcBytes;
    Layout(WithReg(s, index, value));
    assert 492 + 4 * (3 - index) == 504 - 4 * index;
  }

  /** The module of the source: its two static structs, and the two partitions it writes. */
  class AbBoot {
    const mode: Mode
    var state: BootState
    var backupState: BootState
    var primaryPart: BootState
    var backupPart: BootState
    /** The systems whose partitions are marked bootable. */
    var bootable: set<Sys>

    constructor (mode: Mode, disk: Disk)
      ensures this.mode == mode && Stored() == disk && bootable == {}
    {
      this.mode, bootable := mode, {};
      state, backupState := Cleared(), Cleared();
      primaryPart, backupPart := disk.primary, disk.backup;
    }

    function Stored(): Disk
      reads this
    {
      Disk(primaryPart, backupPart)
    }

    method Commit(f: Fault) returns (ok: bool)
      modifies `state, `primaryPart, `backupPart
      ensures ok == f.NoFault?
      ensures state == Seal(old(state))
      ensures Stored() == Written(old(Stored()), old(state), f)
    {
      state := state.(crc := 0);
      ClearedCrcBytes(state);
      FrontIgnoresCrc(old(state));
      var crc := Crc.Crc32(0, Encode(state));
      state := state.(crc := crc);
      if f.PrimaryFault? {
        primaryPart := f.left;
        return false;
      }
      primaryPart := state;
      if f.BackupFault? {
        backupPart := f.left;
        return false;
      }
      backupPart := state;
      ok := true;
    }

    method Init(a: Access, f: Fault) returns (ok: bool)
      modifies this
      ensures bootable == old(bootable) + (if a.sysA then {SysA} else {}) + (if a.sysA && a.sysB then {SysB} else {})
      ensures !(a.sysA && a.sysB) ==> !ok && state == old(state) && Stored() == old(Stored())
      ensures var seen := AsRead(old(Stored()), a);
              a.sysA && a.sysB ==>
                && Unsealed(state) == Unsealed(Recovered(seen))
                && Stored() == (if NeedsRepair(seen) then Written(old(Stored()), Recovered(seen), f) else old(Stored()))
                && ok == (f.NoFault? || !NeedsRepair(seen))
    {
      hide Valid, Seal;
      if !a.sysA {
        return false;
      }
      bootable := bootable + {SysA};
      if !a.sysB {
        return false;
      }
      bootable := bootable + {SysB};
      var primaryOk, backupOk;
      primaryOk, state := Validate(if a.primary then primaryPart else Cleared());
      backupOk, backupState := Validate(if a.backup then backupPart else Cleared());
      if !primaryOk && !backupOk {
        state := Defaults();
        backupState := Defaults();
        ok := Commit(f);
      } else if !backupOk && primaryOk {
        backupState := Defaults();
        ok := Commit(f);
      } else if backupOk && !primaryOk {
        state := backupState;
        ok := Commit(f);
      } else {
        ok := true;
      }
    }

    method Get(f: Fault) returns (r: Result)
      modifies `state, `primaryPart, `backupPart
      ensures var d := Decide(mode, old(state));
              && Unsealed(state) == Unsealed(d.state)
              && Stored() == (if d.commit then Written(old(Stored()), d.state, f) else old(Stored()))
              && r == if d.commit && !f.NoFault? then WriteError else d.result
    {
      hide Valid, Seal;
      var part: Option<Sys> := None;
      var commit := false;
      if HasBit(state.enable, SysA) {
        if !HasBit(state.verified, SysA) && state.remaining > 0 {
          state := state.(remaining := state.remaining - 1);
          commit := true;
          part := Some(SysA);
        } else if !HasBit(state.verified, SysA) {
          if !HasBit(state.verified, SysB) {
            if mode == Speculative {
              commit := true;
              state := state.(enable := 2, remaining := 1, error := 1);
              part := Some(SysB);
            } else {
              return RollbackRefused;
            }
          } else {
            commit := true;
            state := state.(enable := 2, error := 1);
            part := Some(SysB);
          }
        } else {
          part := Some(SysA);
        }
      } else if HasBit(state.enable, SysB) {
        if !HasBit(state.verified, SysB) && state.remaining > 0 {
          state := state.(remaining := state.remaining - 1);
          commit := true;
          part := Some(SysB);
        } else if !HasBit(state.verified, SysB) {
          if !HasBit(state.verified, SysA) {
            if mode == Speculative {
              commit := true;
              state := state.(enable := 1, remaining := 1, error := 2);
              part := Some(SysA);
            } else {
              return RollbackRefused;
            }
          }
          // The source falls through here in speculative mode as well.
          commit := true;
          state := state.(enable := 1, error := 2);
          part := Some(SysA);
        } else {
          part := Some(SysB);
        }
      }
      if commit {
        var ok := Commit(f);
        if !ok {
          return WriteError;
        }
      }
      r := if part.None? then NoActivePartition else Boot(part.value);
    }

    method SetBootPartition(t: Target, f: Fault) returns (ok: bool)
      modifies `state, `primaryPart, `backupPart
      ensures ok == (!t.UnknownPart? && f.NoFault?)
      ensures Unsealed(state) == Unsealed(Activated(old(state), t))
      ensures Stored() == if t.UnknownPart? then old(Stored())
                          else Written(old(Stored()), Activated(old(state), t), f)
    {
      hide Valid, Seal;
      match t {
        case Part(x) =>
          state := state.(enable := x.Bit(), verified := x.Bit(), error := 0);
        case NullPart =>
          state := state.(enable := 0, verified := 0, error := 0);
        case UnknownPart =>
          state := state.(enable := 0, verified := 0, error := 0);
          return false;
      }
      ok := Commit(f);
    }

    method WriteBoardReg(index: nat, value: u32, f: Fault) returns (ok: bool)
      modifies `state, `primaryPart, `backupPart
      ensures ok == (index < 4 && f.NoFault?)
      ensures index >= 4 ==> state == old(state) && Stored() == old(Stored())
      ensures index < 4 ==> Unsealed(state) == Unsealed(WithReg(old(state), index, value))
      ensures index < 4 ==> Stored() == Written(old(Stored()), WithReg(old(state), index, value), f)
    {
      hide Valid, Seal;
      if index > 3 {
        return false;
      }
      state := state.(regs := state.regs[4 - index - 1 := value]);
      ok := Commit(f);
    }
  }
}
