/** Whole runs of the A/B boot state: power cycles, boots, activations and register writes in any order,
    with writes that fail or are cut short at any point. */
module AbRuns {
  import opened Basics
  import opened StateBlob
  import opened AbState

  /** Everything a run can observe. ram is None while the device is off. returned lists the systems handed
      out by boot_ab_state_get; intents lists every state a commit set out to store, and the last commit that
      ended well is number durable of them. */
  datatype Machine = Machine(disk: Disk, ram: Option<BootState>, returned: seq<Sys>,
                             intents: seq<BootState>, durable: nat)

  /** Completed: both writes done. Failed: a write reports an error and the code runs on. Cut: power is lost. */
  datatype Ending = Completed | Failed(fault: Fault) | Cut(fault: Fault)

  datatype Step =
    | PowerOff
    | Init(e: Ending)
    | Get(e: Ending)
    | WriteReg(index: nat, value: u32, e: Ending)
    | Activate(t: Target, e: Ending)

  function FaultOf(e: Ending): Fault { if e.Completed? then NoFault else e.fault }

  function CommitStep(m: Machine, s: BootState, e: Ending): Machine {
    Machine(Written(m.disk, s, FaultOf(e)),
            if e.Cut? then None else Some(Unsealed(s)),
            m.returned,
            m.intents + [Seal(s)],
            if e.Completed? then |m.intents| + 1 else m.durable)
  }

  function Returning(m: Machine, r: Result): Machine {
    if r.Boot? then m.(returned := m.returned + [r.sys]) else m
  }

  function Apply(mode: Mode, m: Machine, step: Step): Machine
    requires Legal(mode, m, step)
  {
    match step
    case PowerOff => m.(ram := None)
    case Init(e) =>
      if NeedsRepair(m.disk) then CommitStep(m, Recovered(m.disk), e)
      else m.(ram := Some(Recovered(m.disk)))
    case Get(e) =>
      var d := Decide(mode, m.ram.value);
      if !d.commit then Returning(m, d.result)
      else if e.Completed? then Returning(CommitStep(m, d.state, e), d.result)
      else CommitStep(m, d.state, e)
    case WriteReg(index, value, e) => CommitStep(m, WithReg(m.ram.value, index, value), e)
    case Activate(t, e) =>
      var s := Activated(m.ram.value, t);
      if t.UnknownPart? then m.(ram := Some(s)) else CommitStep(m, s, e)
  }

  /** The state a step commits, if it commits one. */
  function Committed(mode: Mode, m: Machine, step: Step): Option<BootState>
    requires Powered(m, step)
  {
    match step
    case PowerOff => None
    case Init(e) => if NeedsRepair(m.disk) then Some(Recovered(m.disk)) else None
    case Get(e) => var d := Decide(mode, m.ram.value); if d.commit then Some(d.state) else None
    case WriteReg(index, value, e) => Some(WithReg(m.ram.value, index, value))
    case Activate(t, e) => if t.UnknownPart? then None else Some(Activated(m.ram.value, t))
  }

  predicate Powered(m: Machine, step: Step) {
    && (step.PowerOff? || step.Init? || m.ram.Some?)
    && (step.WriteReg? ==> step.index < 4)
  }

  /** A write that does not complete leaves the old content, the new content, or content that is rejected. */
  predicate Leaves(old_: BootState, new_: BootState, left: BootState) {
    left == old_ || left == new_ || !Valid(left)
  }

  predicate Plausible(d: Disk, s: BootState, f: Fault) {
    match f
    case NoFault => false
    case PrimaryFault(left) => Leaves(d.primary, Seal(s), left)
    case BackupFault(left) => Leaves(d.backup, Seal(s), left)
  }

  predicate Legal(mode: Mode, m: Machine, step: Step) {
    && Powered(m, step)
    && (!step.PowerOff? && !step.e.Completed? && Committed(mode, m, step).Some?
        ==> Plausible(m.disk, Committed(mode, m, step).value, step.e.fault))
  }

  ghost predicate LegalRun(mode: Mode, m: Machine, steps: seq<Step>)
    decreases |steps|
  {
    steps != [] ==> Legal(mode, m, steps[0]) && LegalRun(mode, Apply(mode, m, steps[0]), steps[1..])
  }

  ghost function Run(mode: Mode, m: Machine, steps: seq<Step>): Machine
    requires LegalRun(mode, m, steps)
    decreases |steps|
  {
    if steps == [] then m else Run(mode, Apply(mode, m, steps[0]), steps[1..])
  }

  // ---- the attempt budget ----

  function Count(xs: seq<Sys>, x: Sys): (n: nat)
  {
    if xs == [] then 0 else Count(xs[..|xs| - 1], x) + if xs[|xs| - 1] == x then 1 else 0
  }

  /** The boots of x a stored state still allows. */
  function Allowance(s: BootState, x: Sys): int {
    if Active(s) == Some(x) then s.remaining as int else 0
  }

  predicate Within(s: BootState, x: Sys, left: int) {
    !Verified(s, x) && Allowance(s, x) <= left
  }

  predicate BudgetKept(m: Machine, x: Sys, n: nat) {
    var left := n - Count(m.returned, x);
    && 0 <= left
    && (Valid(m.disk.primary) ==> Within(m.disk.primary, x, left))
    && (Valid(m.disk.backup) ==> Within(m.disk.backup, x, left))
    && (m.ram.Some? ==> Within(m.ram.value, x, left))
  }

  lemma CommitKeepsBudget(m: Machine, s: BootState, e: Ending, x: Sys, n: nat)
    requires BudgetKept(m, x, n)
    requires Within(s, x, n - Count(m.returned, x))
    requires !e.Completed? ==> Plausible(m.disk, s, e.fault)
    ensures BudgetKept(CommitStep(m, s, e), x, n)
  {
    hide Valid, Within, Seal;
    SealKeeps(s, x, n - Count(m.returned, x));
  }

  lemma SealKeeps(s: BootState, x: Sys, left: int)
    ensures Within(s, x, left) == Within(Seal(s), x, left) == Within(Unsealed(s), x, left)
  {
    hide Checksum;
  }

  /** A decision in normal mode for an unverified system uses up one attempt or gives it none. */
  lemma DecideWithin(s: BootState, x: Sys, left: int)
    requires Within(s, x, left) && 0 <= left
    ensures var d := Decide(Normal, s);
            if d.result == Boot(x) then d.commit && 1 <= left && Within(d.state, x, left - 1)
            else Within(d.state, x, left)
  {
  }

  lemma CountPush(xs: seq<Sys>, y: Sys, x: Sys)
    ensures Count(xs + [y], x) == Count(xs, x) + if y == x then 1 else 0
  {
    assert (xs + [y])[..|xs|] == xs;
  }

  lemma StepKeepsBudget(m: Machine, step: Step, x: Sys, n: nat)
    requires BudgetKept(m, x, n) && Legal(Normal, m, step) && !step.Activate?
    ensures BudgetKept(Apply(Normal, m, step), x, n)
  {
    hide Valid, Within, Seal, Count;
    var left := n - Count(m.returned, x);
    match step {
      case PowerOff =>
      case Init(e) =>
        var s := Recovered(m.disk);
        RecoveredWithin(m, x, n);
        if NeedsRepair(m.disk) {
          CommitKeepsBudget(m, s, e, x, n);
        }
      case WriteReg(index, value, e) =>
        var s := WithReg(m.ram.value, index, value);
        RegKeeps(m.ram.value, index, value, x, left);
        CommitKeepsBudget(m, s, e, x, n);
      case Get(e) =>
        GetKeepsBudget(m, e, x, n);
    }
  }

  lemma RegKeeps(s: BootState, index: nat, value: u32, x: Sys, left: int)
    requires index < 4 && Within(s, x, left)
    ensures Within(WithReg(s, index, value), x, left)
  {
  }

  lemma DefaultsWithin(x: Sys, left: int)
    requires 0 <= left
    ensures Within(Defaults(), x, left)
  {
  }

  lemma RecoveredWithin(m: Machine, x: Sys, n: nat)
    requires BudgetKept(m, x, n)
    ensures Within(Recovered(m.disk), x, n - Count(m.returned, x))
  {
    hide Valid, Within, Count, Seal, Cleared;
    var left := n - Count(m.returned, x);
    SealKeeps(m.disk.primary, x, left);
    SealKeeps(m.disk.backup, x, left);
    DefaultsWithin(x, left);
  }

  lemma GetKeepsBudget(m: Machine, e: Ending, x: Sys, n: nat)
    requires BudgetKept(m, x, n) && Legal(Normal, m, Get(e))
    ensures BudgetKept(Apply(Normal, m, Get(e)), x, n)
  {
    hide Valid, Within, Decide, Seal, Count;
    var left := n - Count(m.returned, x);
    var d := Decide(Normal, m.ram.value);
    DecideWithin(m.ram.value, x, left);
    if d.result.Boot? {
      CountPush(m.returned, d.result.sys, x);
    }
    if d.commit {
      WithinWeakens(d.state, x, left);
      CommitKeepsBudget(m, d.state, e, x, n);
      if e.Completed? && d.result == Boot(x) {
        SealKeeps(d.state, x, left - 1);
      }
    }
  }

  lemma WithinWeakens(s: BootState, x: Sys, left: int)
    ensures Within(s, x, left - 1) ==> Within(s, x, left)
  {
  }

  lemma {:induction false} RunKeepsBudget(m: Machine, steps: seq<Step>, x: Sys, n: nat)
    requires BudgetKept(m, x, n) && LegalRun(Normal, m, steps)
    requires forall s | s in steps :: !s.Activate?
    ensures BudgetKept(Run(Normal, m, steps), x, n)
    decreases |steps|
  {
    hide BudgetKept, Apply, Legal;
    if steps != [] {
      StepKeepsBudget(m, steps[0], x, n);
      RunKeepsBudget(Apply(Normal, m, steps[0]), steps[1..], x, n);
    }
  }

  /** Crash-tolerant attempt budget: whatever power cuts and write errors a run in normal mode meets, and
      however stale a copy it restores, an unverified system is returned at most as often as its valid
      stored copies allowed at the start. */
  lemma AttemptBudget(d: Disk, steps: seq<Step>, x: Sys, n: nat)
    requires Valid(d.primary) ==> Within(d.primary, x, n)
    requires Valid(d.backup) ==> Within(d.backup, x, n)
    requires LegalRun(Normal, Machine(d, None, [], [], 0), steps)
    requires forall s | s in steps :: !s.Activate?
    ensures Count(Run(Normal, Machine(d, None, [], [], 0), steps).returned, x) <= n
  {
    hide Valid, Within, Run, LegalRun;
    RunKeepsBudget(Machine(d, None, [], [], 0), steps, x, n);
  }

  // ---- recovery ----

  /** Rewriting a copy with the bytes it already holds does no harm, even when it is cut. */
  predicate Harmless(d: Disk, s: BootState, f: Fault) {
    match f
    case NoFault => true
    case PrimaryFault(left) => d.primary == Seal(s) ==> left == d.primary
    case BackupFault(left) => d.backup == Seal(s) ==> left == d.backup
  }

  /** A cut of one commit, at any point. */
  predicate CutOf(d: Disk, s: BootState, f: Fault) {
    Plausible(d, s, f) && Harmless(d, s, f)
  }

  predicate PowerCutsOnly(mode: Mode, m: Machine, step: Step)
    requires Legal(mode, m, step)
  {
    step.PowerOff? ||
    (&& !step.e.Failed?
     && (step.e.Cut? && Committed(mode, m, step).Some?
         ==> Harmless(m.disk, Committed(mode, m, step).value, step.e.fault)))
  }

  ghost predicate CutRun(mode: Mode, m: Machine, steps: seq<Step>)
    requires LegalRun(mode, m, steps)
    decreases |steps|
  {
    steps != [] ==> PowerCutsOnly(mode, m, steps[0]) && CutRun(mode, Apply(mode, m, steps[0]), steps[1..])
  }

  predicate Recent(m: Machine, c: BootState)
    requires 1 <= m.durable <= |m.intents|
  {
    c in m.intents[m.durable - 1..]
  }

  /** Some copy is valid, both are while the device is on, and a valid copy is never older than the last
      completed commit. */
  predicate Recoverable(m: Machine) {
    && 1 <= m.durable <= |m.intents|
    && (Valid(m.disk.primary) || Valid(m.disk.backup))
    && (m.ram.Some? ==> Valid(m.disk.primary) && Valid(m.disk.backup) && m.ram.value.magic == MAGIC)
    && (Valid(m.disk.primary) ==> Recent(m, m.disk.primary))
    && (Valid(m.disk.backup) ==> Recent(m, m.disk.backup))
  }

  lemma TailGrows<T>(xs: seq<T>, k: nat, x: T, c: T)
    requires k <= |xs|
    ensures x in (xs + [x])[k..]
    ensures c in xs[k..] ==> c in (xs + [x])[k..]
  {
    assert (xs + [x])[k..] == xs[k..] + [x];
  }

  lemma RecentGrows(m: Machine, s: BootState, e: Ending)
    requires 1 <= m.durable <= |m.intents|
    ensures Recent(CommitStep(m, s, e), Seal(s))
    ensures !e.Completed? && Recent(m, m.disk.primary) ==> Recent(CommitStep(m, s, e), m.disk.primary)
    ensures !e.Completed? && Recent(m, m.disk.backup) ==> Recent(CommitStep(m, s, e), m.disk.backup)
  {
    hide Seal, Written, Unsealed, FaultOf;
    TailGrows(m.intents, |m.intents|, Seal(s), Seal(s));
    TailGrows(m.intents, m.durable - 1, Seal(s), m.disk.primary);
    TailGrows(m.intents, m.durable - 1, Seal(s), m.disk.backup);
  }

  lemma CommitKeepsRecoverable(m: Machine, s: BootState, e: Ending)
    requires Recoverable(m) && s.magic == MAGIC && !e.Failed?
    requires e.Cut? ==> CutOf(m.disk, s, e.fault)
    requires Valid(m.disk.backup) || m.disk.primary == Seal(s)
    ensures Recoverable(CommitStep(m, s, e))
  {
    hide Valid, Seal, Recent;
    RecentGrows(m, s, e);
    match e {
      case Completed =>
      case Cut(f) =>
    }
  }

  lemma RecoveredSealed(d: Disk)
    requires Valid(d.primary) || Valid(d.backup)
    ensures Recovered(d).magic == MAGIC
    ensures Seal(Recovered(d)) == if Valid(d.primary) then d.primary else d.backup
  {
    hide Checksum;
    if Valid(d.primary) {
      SealOfUnsealed(d.primary);
    } else {
      SealOfUnsealed(d.backup);
    }
  }

  lemma StepKeepsRecoverable(mode: Mode, m: Machine, step: Step)
    requires Recoverable(m) && Legal(mode, m, step) && PowerCutsOnly(mode, m, step)
    ensures Recoverable(Apply(mode, m, step))
  {
    hide Valid, Seal, Recovered, Decide;
    RecoveredSealed(m.disk);
    match step {
      case PowerOff =>
      case Init(e) =>
        if NeedsRepair(m.disk) {
          CommitKeepsRecoverable(m, Recovered(m.disk), e);
        }
      case WriteReg(index, value, e) =>
        CommitKeepsRecoverable(m, WithReg(m.ram.value, index, value), e);
      case Activate(t, e) =>
        if !t.UnknownPart? {
          CommitKeepsRecoverable(m, Activated(m.ram.value, t), e);
        }
      case Get(e) =>
        var d := Decide(mode, m.ram.value);
        DecideKeepsMagic(mode, m.ram.value);
        if d.commit {
          CommitKeepsRecoverable(m, d.state, e);
        }
    }
  }

  lemma DecideKeepsMagic(mode: Mode, s: BootState)
    ensures Decide(mode, s).state.magic == s.magic
  {
  }

  lemma {:induction false} RunKeepsRecoverable(mode: Mode, m: Machine, steps: seq<Step>)
    requires Recoverable(m) && LegalRun(mode, m, steps) && CutRun(mode, m, steps)
    ensures Recoverable(Run(mode, m, steps))
    decreases |steps|
  {
    hide Recoverable, Apply, Legal, PowerCutsOnly;
    if steps != [] {
      StepKeepsRecoverable(mode, m, steps[0]);
      RunKeepsRecoverable(mode, Apply(mode, m, steps[0]), steps[1..]);
    }
  }

  /** The machine right after s was stored in both copies, powered off. */
  function Stored(s: BootState): Machine { Machine(Disk(s, s), None, [], [s], 1) }

  /** Recovery never mixes versions: after any run with any number of power cuts, initialisation would load
      exactly a state some commit set out to store, never one older than the last completed commit, and it
      would never install defaults. */
  lemma RecoveryIsDurable(mode: Mode, s: BootState, steps: seq<Step>)
    requires Valid(s) && LegalRun(mode, Stored(s), steps) && CutRun(mode, Stored(s), steps)
    ensures var m := Run(mode, Stored(s), steps);
            && 1 <= m.durable <= |m.intents|
            && (Valid(m.disk.primary) || Valid(m.disk.backup))
            && Seal(Recovered(m.disk)) in m.intents[m.durable - 1..]
  {
    hide Valid, Seal, Run, LegalRun, CutRun, Recovered;
    RunKeepsRecoverable(mode, Stored(s), steps);
    RecoveredSealed(Run(mode, Stored(s), steps).disk);
  }

  /** What initialisation falls back to when the primary is lost. */
  function Fallback(d: Disk): BootState {
    if Valid(d.backup) then Unsealed(d.backup) else Defaults()
  }

  lemma ClearedInvalid()
    ensures !Valid(Cleared())
  {
  }

  /** A single commit survives every cut exactly when the backup is valid or the primary already holds it. */
  lemma CutSurvived(d: Disk, s: BootState)
    requires s.magic == MAGIC
    ensures (forall f | CutOf(d, s, f) ::
              Valid(Written(d, s, f).primary) || Valid(Written(d, s, f).backup))
            <==> (Valid(d.backup) || d.primary == Seal(s))
  {
    hide Valid, Seal;
    ClearedInvalid();
    if !Valid(d.backup) && d.primary != Seal(s) {
      var f := PrimaryFault(Cleared());
      assert CutOf(d, s, f);
      assert Written(d, s, f) == Disk(Cleared(), d.backup);
    }
  }

  /** One commit cut anywhere and then initialisation gives wholly the old or wholly the new state, exactly
      when the fallback is one of the two; equal starting copies are the usual case. */
  lemma CutIsAtomic(d: Disk, s: BootState)
    requires Valid(d.primary) && s.magic == MAGIC
    ensures (forall f | CutOf(d, s, f) ::
              Recovered(Written(d, s, f)) == Unsealed(d.primary) || Recovered(Written(d, s, f)) == Unsealed(s))
            <==> (d.primary == Seal(s) || Fallback(d) == Unsealed(d.primary) || Fallback(d) == Unsealed(s))
  {
    hide Valid, Seal, Cleared;
    ClearedInvalid();
    var f := PrimaryFault(Cleared());
    if d.primary != Seal(s) {
      assert CutOf(d, s, f);
      assert Recovered(Written(d, s, f)) == Fallback(d);
    }
  }

  // ---- the class carries out every run ----

  /** The stored copies are the machine's, and so is the state in memory up to its checksum. */
  ghost predicate Follows(b: AbBoot, m: Machine)
    reads b
  {
    b.Stored() == m.disk && (m.ram.Some? ==> Unsealed(b.state) == Unsealed(m.ram.value))
  }

  lemma SealIgnoresCrc(s: BootState, t: BootState)
    requires Unsealed(s) == Unsealed(t)
    ensures Seal(s) == Seal(t)
  {
    assert Checksum(s) == Checksum(Unsealed(s)) && Checksum(t) == Checksum(Unsealed(t));
  }

  lemma DecideIgnoresCrc(mode: Mode, s: BootState, t: BootState)
    requires Unsealed(s) == Unsealed(t)
    ensures var d, e := Decide(mode, s), Decide(mode, t);
            && d.result == e.result && d.commit == e.commit && Unsealed(d.state) == Unsealed(e.state)
            && (!e.commit ==> e.state == t)
  {
    assert s.(crc := 0) == t.(crc := 0);
  }

  /** One step of a run, carried out. */
  method Perform(b: AbBoot, step: Step, ghost m: Machine) returns (got: seq<Sys>)
    requires Follows(b, m) && Legal(b.mode, m, step)
    modifies b
    ensures Follows(b, Apply(b.mode, m, step))
    ensures Apply(b.mode, m, step).returned == m.returned + got
  {
    hide Valid, Seal, Decide, Recovered, NeedsRepair;
    got := [];
    match step {
      case PowerOff =>
      case Init(e) =>
        var _ := b.Init(EVERYTHING, FaultOf(e));
      case Get(e) =>
        DecideIgnoresCrc(b.mode, b.state, m.ram.value);
        SealIgnoresCrc(Decide(b.mode, b.state).state, Decide(b.mode, m.ram.value).state);
        var r := b.Get(FaultOf(e));
        if r.Boot? {
          got := [r.sys];
        }
      case WriteReg(index, value, e) =>
        SealIgnoresCrc(WithReg(b.state, index, value), WithReg(m.ram.value, index, value));
        var _ := b.WriteBoardReg(index, value, FaultOf(e));
      case Activate(t, e) =>
        SealIgnoresCrc(Activated(b.state, t), Activated(m.ram.value, t));
        var _ := b.SetBootPartition(t, FaultOf(e));
    }
  }

  /** A whole run, carried out by the code from the copies on the disk. */
  method Execute(mode: Mode, m: Machine, steps: seq<Step>) returns (b: AbBoot, returned: seq<Sys>)
    requires m.ram == None && LegalRun(mode, m, steps)
    ensures fresh(b) && b.mode == mode && Follows(b, Run(mode, m, steps))
    ensures m.returned + returned == Run(mode, m, steps).returned
  {
    hide Legal, Apply;
    b := new AbBoot(mode, m.disk);
    returned := [];
    ghost var now := m;
    var i := 0;
    assert steps[0..] == steps;
    while i < |steps|
      invariant 0 <= i <= |steps| && fresh(b) && b.mode == mode && Follows(b, now)
      invariant LegalRun(mode, now, steps[i..]) && Run(mode, now, steps[i..]) == Run(mode, m, steps)
      invariant now.returned == m.returned + returned
    {
      assert steps[i..][0] == steps[i] && steps[i..][1..] == steps[i + 1..];
      var got := Perform(b, steps[i], now);
      now := Apply(mode, now, steps[i]);
      assert m.returned + returned + got == m.returned + (returned + got);
      returned := returned + got;
      i := i + 1;
    }
    assert steps[i..] == [];
  }

  /** The attempt budget, of the code: however a run in normal mode goes, it hands out an unverified system at most as
      often as its valid stored copies allowed. */
  method ExecuteWithinBudget(d: Disk, steps: seq<Step>, x: Sys, n: nat) returns (returned: seq<Sys>)
    requires Valid(d.primary) ==> Within(d.primary, x, n)
    requires Valid(d.backup) ==> Within(d.backup, x, n)
    requires LegalRun(Normal, Machine(d, None, [], [], 0), steps)
    requires forall s | s in steps :: !s.Activate?
    ensures Count(returned, x) <= n
  {
    hide Valid, Within, Run, LegalRun, Count;
    var b;
    var m := Machine(d, None, [], [], 0);
    b, returned := Execute(Normal, m, steps);
    AttemptBudget(d, steps, x, n);
    assert m.returned + returned == returned;
  }

  /** Recovery, of the code: after any run with power cuts, initialisation loads a state some commit set out to store,
      no older than the last completed commit. */
  method ExecuteAndRecover(mode: Mode, s: BootState, steps: seq<Step>, f: Fault) returns (loaded: BootState)
    requires Valid(s) && LegalRun(mode, Stored(s), steps) && CutRun(mode, Stored(s), steps)
    ensures var m := Run(mode, Stored(s), steps);
            1 <= m.durable <= |m.intents| && Seal(loaded) in m.intents[m.durable - 1..]
  {
    hide Valid, Seal, Run, LegalRun, CutRun, Recovered;
    var b, returned := Execute(mode, Stored(s), steps);
    ghost var disk := b.Stored();
    RecoveryIsDurable(mode, s, steps);
    var _ := b.Init(EVERYTHING, f);
    loaded := b.state;
    SealIgnoresCrc(loaded, Recovered(disk));
  }

  // ---- a completed activation ----

  /** The word that stands for what is activated: 1 for A, 2 for B, 0 for neither. */
  function Word(t: Target): u32 { match t case Part(x) => if x == SysA then 1 else 2 case _ => 0 }

  /** The state has what t names, and only that, enabled and verified. */
  predicate Names(s: BootState, t: Target) { s.enable == s.verified == Word(t) }

  /** Every valid copy, and the state in memory, has t activated. */
  predicate Holding(m: Machine, t: Target) {
    && (Valid(m.disk.primary) || Valid(m.disk.backup))
    && (Valid(m.disk.primary) ==> Names(m.disk.primary, t)) && (Valid(m.disk.backup) ==> Names(m.disk.backup, t))
    && (m.ram.Some? ==> Valid(m.disk.primary) && Valid(m.disk.backup) && m.ram.value.magic == MAGIC && Names(m.ram.value, t))
  }

  /** The systems n calls hand out with t activated. */
  function Handed(t: Target, n: nat): seq<Sys> { if t.Part? then seq(n, _ => t.sys) else [] }

  function Gets(steps: seq<Step>): nat {
    if steps == [] then 0 else (if steps[0].Get? then 1 else 0) + Gets(steps[1..])
  }

  lemma CommitHolds(m: Machine, s: BootState, e: Ending, t: Target)
    requires Holding(m, t) && s.magic == MAGIC && Names(s, t) && !e.Failed?
    requires e.Cut? ==> CutOf(m.disk, s, e.fault)
    requires Valid(m.disk.backup) || m.disk.primary == Seal(s)
    ensures Holding(CommitStep(m, s, e), t)
  {
    hide Valid, Names, Word, Checksum;
    SealNames(s, t);
    hide Seal, Unsealed;
    match e {
      case Completed =>
      case Cut(f) =>
    }
  }

  lemma SealNames(s: BootState, t: Target)
    requires s.magic == MAGIC && Names(s, t)
    ensures Valid(Seal(s)) && Names(Seal(s), t) && Unsealed(s).magic == MAGIC && Names(Unsealed(s), t)
  {
    hide Checksum;
  }

  /** A call of boot_ab_state_get hands out what is activated, or nothing, and stores nothing. */
  lemma GetHolds(mode: Mode, m: Machine, t: Target, e: Ending)
    requires Holding(m, t) && m.ram.Some?
    ensures Legal(mode, m, Get(e)) && Apply(mode, m, Get(e)) == m.(returned := m.returned + Handed(t, 1))
  {
    hide Valid, Seal;
    var d := Decide(mode, m.ram.value);
    assert !d.commit && d.result == if t.Part? then Boot(t.sys) else NoActivePartition;
    if t.Part? {
      assert Handed(t, 1) == [t.sys];
    } else {
      assert m.returned + [] == m.returned;
    }
  }

  lemma StepHolds(mode: Mode, m: Machine, step: Step, t: Target)
    requires Holding(m, t) && Legal(mode, m, step) && PowerCutsOnly(mode, m, step) && !step.Activate?
    ensures Holding(Apply(mode, m, step), t)
    ensures Apply(mode, m, step).returned == m.returned + if step.Get? then Handed(t, 1) else []
  {
    hide Valid, Seal, Recovered, Decide, Handed;
    match step {
      case PowerOff =>
      case Init(e) =>
        RecoveredSealed(m.disk);
        RecoveredNames(m.disk, t);
        if NeedsRepair(m.disk) {
          CommitHolds(m, Recovered(m.disk), e, t);
        }
      case WriteReg(index, value, e) => CommitHolds(m, WithReg(m.ram.value, index, value), e, t);
      case Get(e) => GetHolds(mode, m, t, e);
    }
  }

  lemma RecoveredNames(d: Disk, t: Target)
    requires Valid(d.primary) || Valid(d.backup)
    requires (Valid(d.primary) ==> Names(d.primary, t)) && (Valid(d.backup) ==> Names(d.backup, t))
    ensures Names(Recovered(d), t)
  {
    hide Valid;
  }

  lemma {:induction false} RunHolds(mode: Mode, m: Machine, steps: seq<Step>, t: Target)
    requires Holding(m, t) && LegalRun(mode, m, steps) && CutRun(mode, m, steps)
    requires forall s | s in steps :: !s.Activate?
    ensures Holding(Run(mode, m, steps), t)
    ensures Run(mode, m, steps).returned == m.returned + Handed(t, Gets(steps))
    decreases |steps|
  {
    hide Holding, Apply, Legal, PowerCutsOnly, Handed, Seal, Decide, Valid;
    if steps == [] {
      HandedMore(t, m.returned, 0, 0);
    } else {
      StepHolds(mode, m, steps[0], t);
      RunHolds(mode, Apply(mode, m, steps[0]), steps[1..], t);
      HandedMore(t, m.returned, if steps[0].Get? then 1 else 0, Gets(steps[1..]));
    }
  }

  lemma HandedMore(t: Target, before: seq<Sys>, n: nat, k: nat)
    ensures before + Handed(t, n) + Handed(t, k) == before + Handed(t, n + k) && Handed(t, 0) == []
  {
    assert Handed(t, n) + Handed(t, k) == Handed(t, n + k);
  }

  /** Whatever the device starts from, it works on states with the right magic. */
  lemma {:induction false} MagicInMemory(mode: Mode, m: Machine, steps: seq<Step>)
    requires (m.ram.Some? ==> m.ram.value.magic == MAGIC) && LegalRun(mode, m, steps)
    ensures var z := Run(mode, m, steps); z.ram.Some? ==> z.ram.value.magic == MAGIC
    decreases |steps|
  {
    if steps != [] {
      StepKeepsMagic(mode, m, steps[0]);
      hide Apply, Legal;
      MagicInMemory(mode, Apply(mode, m, steps[0]), steps[1..]);
    }
  }

  lemma StepKeepsMagic(mode: Mode, m: Machine, step: Step)
    requires (m.ram.Some? ==> m.ram.value.magic == MAGIC) && Legal(mode, m, step)
    ensures var z := Apply(mode, m, step); z.ram.Some? ==> z.ram.value.magic == MAGIC
  {
    hide Seal, Checksum, Written;
  }

  function Activation(mode: Mode, m: Machine, t: Target): Machine
    requires m.ram.Some?
  {
    Apply(mode, m, Activate(t, Completed))
  }

  /** An activation that completed holds: from every powered state, whose magic is right by MagicInMemory, the calls after
      the activation of a system hand out that system and no other, in either mode, through power cycles, repairs and
      register writes with power cuts anywhere, until the next activation, and store nothing themselves; after the
      activation of the null partition nothing is handed out. */
  lemma ActivationHolds(mode: Mode, m: Machine, t: Target, after: seq<Step>)
    requires m.ram.Some? && m.ram.value.magic == MAGIC && !t.UnknownPart?
    requires LegalRun(mode, Activation(mode, m, t), after) && CutRun(mode, Activation(mode, m, t), after)
    requires forall s | s in after :: !s.Activate?
    ensures var end := Run(mode, Activation(mode, m, t), after);
            && end.returned == m.returned + (if t.Part? then seq(Gets(after), _ => t.sys) else [])
            && (end.ram.Some? ==> GetStoresNothing(mode, end))
  {
    hide Run, LegalRun, CutRun, Activation, Holding, Apply, Legal;
    ActivatedHolds(mode, m, t);
    RunHolds(mode, Activation(mode, m, t), after, t);
    var end := Run(mode, Activation(mode, m, t), after);
    if end.ram.Some? {
      forall e
        ensures Legal(mode, end, Get(e)) && Apply(mode, end, Get(e)).intents == end.intents
      {
        GetHolds(mode, end, t, e);
      }
    }
  }

  ghost predicate GetStoresNothing(mode: Mode, m: Machine) {
    forall e :: Legal(mode, m, Get(e)) && Apply(mode, m, Get(e)).intents == m.intents
  }

  lemma ActivatedHolds(mode: Mode, m: Machine, t: Target)
    requires m.ram.Some? && m.ram.value.magic == MAGIC && !t.UnknownPart?
    ensures Holding(Activation(mode, m, t), t) && Activation(mode, m, t).returned == m.returned
  {
    hide Valid, Seal;
    var s := Activated(m.ram.value, t);
    assert Names(s, t);
    SealNames(s, t);
  }

  // ---- a refused activation ----

  /** Activating a partition that is neither system is refused, but not without effect: the next register write stores
      a state with no system enabled, and there is nothing left to boot. */
  lemma RefusedActivationDisables(mode: Mode, m: Machine, e: Ending, index: nat, value: u32)
    requires m.ram.Some? && index < 4
    ensures var refused := Apply(mode, m, Activate(UnknownPart, e));
            && refused.disk == m.disk && refused.ram.Some?
            && var after := Apply(mode, refused, WriteReg(index, value, Completed));
               && after.disk.primary == after.disk.backup && Active(after.disk.primary) == None
               && after.ram.Some? && Decide(mode, after.ram.value).result == NoActivePartition
  {
    hide Checksum;
  }

  // ---- a write error that the code runs on from ----

  /** A state with A enabled, unverified and five attempts left. */
  function Trial(): BootState { Seal(Defaults().(enable := 1, remaining := 5)) }

  const ERROR_RUN: seq<Step> :=
    [Init(Completed), Get(Failed(BackupFault(Cleared()))), Get(Cut(PrimaryFault(Cleared()))), Init(Completed)]

  /** A reported write error is not a power cut: the code keeps going with one copy left, and the next cut
      can then lose both, so that defaults are installed. */
  lemma WriteErrorCanLoseState()
    ensures Valid(Trial())
    ensures LegalRun(Normal, Stored(Trial()), ERROR_RUN)
    ensures Run(Normal, Stored(Trial()), ERROR_RUN).ram == Some(Defaults())
  {
    hide Checksum;
    var s := Trial();
    ClearedInvalid();
    assert s.enable == 1 && s.verified == 0 && s.remaining == 5;
    assert Unsealed(Defaults()) == Defaults();
    hide Cleared;
    var m0 := Stored(s);
    var m1 := Apply(Normal, m0, ERROR_RUN[0]);
    assert m1.ram == Some(Unsealed(s));
    var m2 := Apply(Normal, m1, ERROR_RUN[1]);
    assert m2.disk.backup == Cleared() && m2.ram.value.remaining == 4;
    var m3 := Apply(Normal, m2, ERROR_RUN[2]);
    assert m3.disk == Disk(Cleared(), Cleared());
    var m4 := Apply(Normal, m3, ERROR_RUN[3]);
    assert m4.ram == Some(Unsealed(Defaults()));
    assert ERROR_RUN[1..][0] == ERROR_RUN[1] && ERROR_RUN[1..][1..] == ERROR_RUN[2..];
    assert ERROR_RUN[2..][0] == ERROR_RUN[2] && ERROR_RUN[2..][1..] == ERROR_RUN[3..];
    assert ERROR_RUN[3..][0] == ERROR_RUN[3] && ERROR_RUN[3..][1..] == [];
    assert LegalRun(Normal, m4, []) && Run(Normal, m4, []) == m4;
    assert LegalRun(Normal, m3, ERROR_RUN[3..]) && Run(Normal, m3, ERROR_RUN[3..]) == m4;
    assert LegalRun(Normal, m2, ERROR_RUN[2..]) && Run(Normal, m2, ERROR_RUN[2..]) == m4;
    assert LegalRun(Normal, m1, ERROR_RUN[1..]) && Run(Normal, m1, ERROR_RUN[1..]) == m4;
  }
}
