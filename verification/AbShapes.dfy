/** The sequence of systems that repeated calls of boot_ab_state_get return when nothing interferes. */
module AbShapes {
  import opened Basics
  import opened StateBlob
  import opened AbState

  /** The state after k decisions. */
  function StateAfter(mode: Mode, s: BootState, k: nat): BootState
    decreases k
  {
    if k == 0 then s else StateAfter(mode, Decide(mode, s).state, k - 1)
  }

  /** The answer of decision number k, counting from zero. */
  function ResultAt(mode: Mode, s: BootState, k: nat): Result {
    Decide(mode, StateAfter(mode, s, k)).result
  }

  predicate OnTrial(s: BootState, x: Sys) {
    Active(s) == Some(x) && !Verified(s, x)
  }

  lemma FixedPoint(mode: Mode, s: BootState, k: nat)
    requires Decide(mode, s).state == s
    ensures StateAfter(mode, s, k) == s
  {
  }

  /** One decision for a system on trial in normal mode, and where it leads. */
  lemma TrialDecision(s: BootState, x: Sys)
    requires OnTrial(s, x)
    ensures var d, y := Decide(Normal, s), x.Other();
            if s.remaining > 0 then
              && d.result == Boot(x) && d.state == s.(remaining := s.remaining - 1) && OnTrial(d.state, x)
              && Verified(d.state, y) == Verified(s, y)
            else if Verified(s, y) then
              d.result == Boot(y) && Decide(Normal, d.state).result == Boot(y) && Decide(Normal, d.state).state == d.state
            else d.result == RollbackRefused && d.state == s
  {
  }

  /** Normal mode boots the system on trial once per attempt, then the other one forever if that is verified,
      and otherwise refuses forever without touching the state. */
  lemma {:induction false} NormalShape(s: BootState, x: Sys, k: nat)
    requires OnTrial(s, x)
    ensures ResultAt(Normal, s, k) ==
            if k < s.remaining as int then Boot(x)
            else if Verified(s, x.Other()) then Boot(x.Other())
            else RollbackRefused
    ensures k >= s.remaining as int && !Verified(s, x.Other()) ==>
              StateAfter(Normal, s, k) == s.(remaining := 0)
    decreases k
  {
    hide Decide, OnTrial, Verified;
    TrialDecision(s, x);
    var d := Decide(Normal, s);
    if s.remaining == 0 {
      if Verified(s, x.Other()) {
        FixedPoint(Normal, d.state, if k == 0 then 0 else k - 1);
      } else {
        FixedPoint(Normal, s, k);
      }
    } else if k > 0 {
      NormalShape(d.state, x, k - 1);
    }
  }

  /** Speculative mode with neither system verified never fails: after the attempts it alternates in pairs. */
  lemma {:induction false} SpeculativeShape(s: BootState, x: Sys, k: nat)
    requires OnTrial(s, x) && !Verified(s, x.Other())
    ensures ResultAt(Speculative, s, k) ==
            if k < s.remaining as int || (k - s.remaining as int) / 2 % 2 == 1 then Boot(x) else Boot(x.Other())
    decreases k
  {
    var d := Decide(Speculative, s);
    if k > 0 {
      if s.remaining == 0 {
        SpeculativeShape(d.state, x.Other(), k - 1);
      } else {
        SpeculativeShape(d.state, x, k - 1);
      }
    }
  }

  // ---- the A and B branches mirror each other ----

  function SwapBits(w: u32): u32 { w / 4 * 4 + w % 2 * 2 + w / 2 % 2 }

  function Mirror(s: BootState): BootState {
    s.(enable := SwapBits(s.enable), verified := SwapBits(s.verified), error := SwapBits(s.error))
  }

  function MirrorResult(r: Result): Result {
    if r.Boot? then Boot(r.sys.Other()) else r
  }

  function MirrorDecision(d: Decision): Decision {
    Decision(MirrorResult(d.result), Mirror(d.state), d.commit)
  }

  lemma SwapBitsSwaps(w: u32)
    ensures HasBit(SwapBits(w), SysA) == HasBit(w, SysB) && HasBit(SwapBits(w), SysB) == HasBit(w, SysA)
    ensures SwapBits(1) == 2 && SwapBits(2) == 1
  {
    var n := w as int;
    LowBits(n / 4, n % 2, n / 2 % 2);
    assert SwapBits(w) as int == n / 4 * 4 + n % 2 * 2 + n / 2 % 2;
  }

  lemma LowBits(q: int, a: int, b: int)
    requires 0 <= a < 2 && 0 <= b < 2
    ensures (q * 4 + a * 2 + b) % 2 == b && (q * 4 + a * 2 + b) / 2 % 2 == a
  {
    assert (q * 4 + a * 2 + b) / 2 == q * 2 + a;
  }

  predicate BothEnabled(s: BootState) { HasBit(s.enable, SysA) && HasBit(s.enable, SysB) }

  lemma MirrorFacts(s: BootState)
    ensures forall x :: Verified(Mirror(s), x) == Verified(s, x.Other())
    ensures BothEnabled(s) ==> Active(s) == Active(Mirror(s)) == Some(SysA)
    ensures !BothEnabled(s) ==>
              Active(Mirror(s)) == if Active(s).Some? then Some(Active(s).value.Other()) else None
    ensures forall x: Sys :: SwapBits(x.Bit()) == x.Other().Bit()
  {
    hide SwapBits, HasBit;
    SwapBitsSwaps(s.enable);
    SwapBitsSwaps(s.verified);
  }

  /** Swapping the names of the systems swaps the decision, exactly when not both are enabled, or when the
      call refuses whichever of them it looks at. */
  lemma DecisionMirrors(mode: Mode, s: BootState)
    ensures Decide(mode, Mirror(s)) == MirrorDecision(Decide(mode, s))
            <==> (!BothEnabled(s)
                  || (mode == Normal && s.remaining == 0 && !Verified(s, SysA) && !Verified(s, SysB)))
  {
    hide SwapBits, Verified, Active, BothEnabled;
    MirrorFacts(s);
    var x := Active(s);
    if x.Some? && !Verified(s, x.value) {
      if s.remaining > 0 {} else {}
    }
  }

  lemma DecideKeepsSingle(mode: Mode, s: BootState)
    requires !BothEnabled(s)
    ensures !BothEnabled(Decide(mode, s).state)
  {
  }

  /** Hence whole answer sequences mirror when exactly one system is enabled. */
  lemma {:induction false} RunsMirror(mode: Mode, s: BootState, k: nat)
    requires !BothEnabled(s)
    ensures ResultAt(mode, Mirror(s), k) == MirrorResult(ResultAt(mode, s, k))
    ensures StateAfter(mode, Mirror(s), k) == Mirror(StateAfter(mode, s, k))
    decreases k
  {
    hide Decide, Mirror, BothEnabled;
    DecisionMirrors(mode, s);
    DecideKeepsSingle(mode, s);
    if k > 0 {
      RunsMirror(mode, Decide(mode, s).state, k - 1);
    }
  }

  /** A decision for another system than the enabled one is a rollback: it enables that system alone and records an error
      for the one given up, bit 0 for A and bit 1 for B; in normal mode it takes that the other one is verified. */
  lemma RollbackBlames(mode: Mode, s: BootState, y: Sys)
    requires Decide(mode, s).result == Boot(y) && Active(s) != Some(y)
    ensures var d := Decide(mode, s);
            && d.commit && d.state.enable == (if y == SysA then 1 else 2) && d.state.error == (if y == SysA then 2 else 1)
            && d.state.verified == s.verified && d.state.regs == s.regs && !Verified(s, y.Other()) && s.remaining == 0
            && (mode == Normal ==> Verified(s, y) && d.state.remaining == 0)
            && (mode == Speculative && !Verified(s, y) ==> d.state.remaining == 1)
  {
  }

  /** No other decision touches the error word. */
  lemma OthersBlameNone(mode: Mode, s: BootState)
    requires Decide(mode, s).result.Boot? ==> Active(s) == Some(Decide(mode, s).result.sys)
    ensures Decide(mode, s).state.error == s.error && Decide(mode, s).state.enable == s.enable
  {
  }
}
