/** The command gate of src/cm/cm_main.c with the command tests of src/wire.c: what a locked device does for a host that
    has not authenticated. */
module Gate {

  const MAGIC: nat := 0x50424c30
  const RESET: nat := 1
  const IDENTIFIER_READ: nat := 2
  const AUTHENTICATE: nat := 16
  const BOARD_COMMAND: nat := 24
  const END: nat := 29
  const LOCKED: int := 3

  /** What commands may change on the device. */
  datatype World = World(partitions: seq<bv8>, keys: seq<bv8>, lifecycle: int, bootState: seq<bv8>)

  /** A command as received, with everything outside this file that its handler depends on: effect holds what the
      handler would make of the fields it changes, status what reading the lifecycle gives if that fails, supported
      and passes whether the authentication method is built in and whether the credentials pass, fails whether the
      handler ends with an error, and reboot whether a board command asks for a reboot on success. */
  datatype Request = Request(magic: nat, command: nat, effect: World, status: int, supported: bool, passes: bool,
                             fails: bool, reboot: bool)

  predicate ValidCommand(q: Request) { q.magic == MAGIC && 0 < q.command < END }

  predicate RequiresAuth(q: Request) { q.command != IDENTIFIER_READ && q.command != AUTHENTICATE }

  /** An authenticate that is decided, and decided for the host. */
  predicate Succeeds(q: Request) { Decides(q) && q.passes }

  predicate Decides(q: Request) { ValidCommand(q) && q.command == AUTHENTICATE && q.supported }

  /** Each kind of command changes its own part of the device only; a board command may change anything. */
  function Effect(q: Request, w: World): (r: World)
    ensures q.command !in {11, 15, 20, 24} ==> r.partitions == w.partitions
    ensures q.command !in {7, 24} ==> r.keys == w.keys
    ensures q.command !in {4, 5, 6, 24} ==> r.lifecycle == w.lifecycle
    ensures q.command !in {13, 22, 23, 24} ==> r.bootState == w.bootState
    ensures q.command == 24 ==> r == q.effect
    ensures q.command in {11, 15, 20} ==> r == w.(partitions := q.effect.partitions)
    ensures q.command == 7 ==> r == w.(keys := q.effect.keys)
    ensures q.command in {4, 5, 6} ==> r == w.(lifecycle := q.effect.lifecycle)
    ensures q.command in {13, 22, 23} ==> r == w.(bootState := q.effect.bootState)
  {
    World(if q.command in {11, 15, 20, 24} then q.effect.partitions else w.partitions,
          if q.command in {7, 24} then q.effect.keys else w.keys,
          if q.command in {4, 5, 6, 24} then q.effect.lifecycle else w.lifecycle,
          if q.command in {13, 22, 23, 24} then q.effect.bootState else w.bootState)
  }

  predicate Refreshes(q: Request) { q.command in {4, 5, 6, 8} }

  function Status(q: Request, w: World): int { if q.status < 0 then q.status else w.lifecycle }

  /** Reset and the two boot commands answer by themselves and leave without looking for a wanted reboot. */
  predicate Leaves(q: Request) { q.command in {1, 22, 23} }

  datatype Outcome = Invalid | NotAuthenticated | Ran

  class CommandMode {
    var authenticated: bool
    var slc: int
    var world: World
    var rebootRequested: bool
    /** The commands whose handlers have run. */
    var ran: seq<nat>

    constructor (world: World, needsAuth: bool)
      ensures this.world == world && slc == world.lifecycle && authenticated == !needsAuth && ran == []
      ensures !rebootRequested
    {
      this.world, slc, authenticated, ran, rebootRequested := world, world.lifecycle, !needsAuth, [], false;
    }

    predicate Admits(q: Request)
      reads this
    {
      ValidCommand(q) && (authenticated || slc != LOCKED || !RequiresAuth(q))
    }

    method Authenticate(q: Request)
      modifies `authenticated
      ensures authenticated == if q.supported then q.passes else old(authenticated)
    {
      if q.supported {
        if q.passes {
          authenticated := true;
        } else {
          authenticated := false;
        }
      }
    }

    method RefreshLifecycle(q: Request)
      modifies `slc
      ensures slc == Status(q, world)
    {
      slc := if q.status < 0 then q.status else world.lifecycle;
    }

    /** What a board command has asked for by the time the result is sent. */
    predicate WantsReboot(q: Request)
      reads this
    {
      rebootRequested || (Admits(q) && q.command == BOARD_COMMAND && q.reboot)
    }

    /** One command. A handler runs exactly when the gate admits its command, a refused command changes nothing on the
        device, and only lifecycle commands refresh the value the gate goes by. Command mode ends with a reset, and
        with the first result, be it a refusal, sent without a handler's error after a reboot was asked for. */
    method Parse(q: Request) returns (o: Outcome, abort: bool)
      modifies this
      ensures ran == old(ran) + if old(Admits(q)) then [q.command] else []
      ensures o == Invalid <==> q.magic != 0x50424c30 || q.command == 0 || q.command >= 29
      ensures o == NotAuthenticated <==> o != Invalid && !old(authenticated) && old(slc) == 3 && q.command !in {2, 16}
      ensures o == Ran <==> old(Admits(q))
      ensures !old(Admits(q)) ==> world == old(world) && slc == old(slc)
      ensures authenticated == if Decides(q) then q.passes else old(authenticated)
      ensures old(Admits(q)) ==> world == Effect(q, old(world))
      ensures slc == if !old(Admits(q)) || q.command !in {4, 5, 6, 8} then old(slc)
                     else if q.status < 0 then q.status else world.lifecycle
      ensures var result := !old(Admits(q)) || (!Leaves(q) && !q.fails);
              && abort == ((old(Admits(q)) && q.command == RESET) || (result && old(WantsReboot(q))))
              && rebootRequested == (old(WantsReboot(q)) && !result)
    {
      if !ValidCommand(q) {
        abort := RebootIfWanted(true);
        return Invalid, abort;
      }
      if RequiresAuth(q) && !authenticated && slc == LOCKED {
        abort := RebootIfWanted(true);
        return NotAuthenticated, abort;
      }
      o := Ran;
      Handle(q);
      if Leaves(q) {
        abort := q.command == RESET;
      } else {
        abort := RebootIfWanted(!q.fails);
      }
    }

    method Handle(q: Request)
      modifies this
      ensures ran == old(ran) + [q.command] && world == Effect(q, old(world))
      ensures slc == if Refreshes(q) then Status(q, world) else old(slc)
      ensures authenticated == if q.command == AUTHENTICATE && q.supported then q.passes else old(authenticated)
      ensures rebootRequested == (old(rebootRequested) || (q.command == BOARD_COMMAND && q.reboot))
    {
      ran := ran + [q.command];
      match q.command {
        case 4 => world := world.(lifecycle := q.effect.lifecycle); RefreshLifecycle(q);
        case 5 => world := world.(lifecycle := q.effect.lifecycle); RefreshLifecycle(q);
        case 6 => world := world.(lifecycle := q.effect.lifecycle); RefreshLifecycle(q);
        case 7 => world := world.(keys := q.effect.keys);
        case 8 => RefreshLifecycle(q);
        case 11 => world := world.(partitions := q.effect.partitions);
        case 13 => world := world.(bootState := q.effect.bootState);
        case 15 => world := world.(partitions := q.effect.partitions);
        case 16 => Authenticate(q);
        case 20 => world := world.(partitions := q.effect.partitions);
        case 22 => world := world.(bootState := q.effect.bootState);
        case 23 => world := world.(bootState := q.effect.bootState);
        case 24 => world := q.effect; rebootRequested := rebootRequested || q.reboot;
        case _ =>
      }
    }

    method RebootIfWanted(succeeded: bool) returns (abort: bool)
      modifies `rebootRequested
      ensures abort == (old(rebootRequested) && succeeded)
      ensures rebootRequested == (old(rebootRequested) && !succeeded)
    {
      abort := false;
      if rebootRequested && succeeded {
        rebootRequested := false;
        abort := true;
      }
    }
  }

  /** How the last authenticate that was decided went. */
  function LastDecision(qs: seq<Request>, before: bool): bool {
    if qs == [] then before
    else var q := qs[|qs| - 1]; if Decides(q) then q.passes else LastDecision(qs[..|qs| - 1], before)
  }

  /** The commands an unauthenticated host gets an answer to on a locked device. */
  function Answered(qs: seq<Request>): seq<nat> {
    if qs == [] then [] else
    var q := qs[|qs| - 1];
    Answered(qs[..|qs| - 1]) + if q.magic == 0x50424c30 && q.command in {2, 16} then [q.command] else []
  }

  /** The gate over whole sessions, which end with a reset or after a board command asked for a reboot. On a device
      found locked, as long as no authenticate has succeeded, the identifier and authenticate handlers and no others
      run, nothing on the device changes, the lock included, and the session serves every command; and at any time the
      host counts as authenticated exactly when its last decided authenticate succeeded. */
  method Serve(world: World, qs: seq<Request>)
    returns (served: nat, after: World, slc: int, authenticated: bool, ran: seq<nat>)
    ensures served <= |qs| && authenticated == LastDecision(qs[..served], false)
    ensures world.lifecycle == LOCKED && (forall q | q in qs[..served] :: !Succeeds(q)) ==>
              && served == |qs| && after == world && slc == LOCKED && !authenticated
              && ran == Answered(qs)
    ensures served < |qs| ==> RESET in ran || BOARD_COMMAND in ran
    ensures forall c | c in ran :: 0 < c < END
  {
    var m := new CommandMode(world, true);
    served := 0;
    var abort := false;
    while served < |qs| && !abort
      invariant 0 <= served <= |qs| && fresh(m) && m.authenticated == LastDecision(qs[..served], false)
      invariant world.lifecycle == LOCKED && (forall q | q in qs[..served] :: !Succeeds(q)) ==>
                  && !abort && !m.rebootRequested && m.world == world && m.slc == LOCKED && !m.authenticated
                  && m.ran == Answered(qs[..served])
      invariant abort || m.rebootRequested ==> RESET in m.ran || BOARD_COMMAND in m.ran
      invariant forall c | c in m.ran :: 0 < c < END
    {
      NextDecision(qs, served);
      assert qs[..served + 1][..served] == qs[..served];
      var o;
      o, abort := m.Parse(qs[served]);
      served := served + 1;
    }
    assert served == |qs| ==> qs[..served] == qs;
    after, slc, authenticated, ran := m.world, m.slc, m.authenticated, m.ran;
  }

  lemma NextDecision(qs: seq<Request>, n: nat)
    requires n < |qs|
    ensures LastDecision(qs[..n + 1], false) == if Decides(qs[n]) then qs[n].passes else LastDecision(qs[..n], false)
    ensures forall q | q in qs[..n] :: q in qs[..n + 1]
    ensures qs[n] in qs[..n + 1]
  {
    var now := qs[..n + 1];
    assert now[..n] == qs[..n] && now[n] == qs[n];
  }

  /** Nobody counts as authenticated without an authenticate that succeeded. */
  lemma {:induction false} DecisionNeedsSuccess(qs: seq<Request>)
    requires LastDecision(qs, false)
    ensures exists q :: q in qs && Succeeds(q)
  {
    var q := qs[|qs| - 1];
    if Decides(q) {
      assert q in qs && Succeeds(q);
    } else {
      DecisionNeedsSuccess(qs[..|qs| - 1]);
      var x :| x in qs[..|qs| - 1] && Succeeds(x);
      assert x in qs;
    }
  }
}
