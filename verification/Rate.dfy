/** The fractional clock divider gives a state machine exactly its share of
    cycles, and keeps equal dividers in phase. */
module Rate {
  import opened Bits
  import opened Machine
  import opened Runs

  lemma CycleKeepsClock(w: World, g: nat)
    requires InWorld(w, g)
    ensures var s, r := w.env.sm[g], SmCycle(w, g).env.sm[g];
            r.cfg == s.cfg && r.clkAccum == s.clkAccum && r.enabled == s.enabled
  {
    hide PresentInsn;
    var sm := Autopull(w.env.sm[g]);
    assert LocalTo(w.env.sm[g], sm);
    var w1 := WithSm(w, g, sm);
    PresentKeepsClock(w1, g, Presented(w1, g), sm.execPending);
  }

  lemma PresentKeepsClock(w: World, g: nat, insn: Isa.Insn, fromExec: bool)
    requires InWorld(w, g)
    ensures var s, r := w.env.sm[g], PresentInsn(w, g, insn, fromExec).env.sm[g];
            r.cfg == s.cfg && r.clkAccum == s.clkAccum && r.enabled == s.enabled
  {
    hide ExecOne, DelaySideOf, RetireFlow, CountFetch;
  }

  lemma ClockAdvancesDivider(w: World, g: nat)
    requires InWorld(w, g)
    ensures var s, r := w.env.sm[g], Clock(w, g).env.sm[g];
            r.cfg == s.cfg && r.clkAccum == Ticked(s).clkAccum
  {
    hide SmCycle;
    CycleKeepsClock(WithSm(w, g, Ticked(w.env.sm[g])), g);
  }

  lemma OtherActKeepsDivider(w: World, act: Act, g: nat)
    requires InWorld(w, g) && Applies(act, w.env) && act != ClockSm(g)
    ensures var s, r := w.env.sm[g], Do(w, act).env.sm[g]; r.cfg == s.cfg && r.clkAccum == s.clkAccum
  {
    hide Clock, DoEnv;
    if !act.ClockSm? { EnvActFrame(w.env, act, g); }
  }

  /** How many ticks the run gives state machine `g`. */
  function Ticks(acts: seq<Act>, g: nat): nat {
    if acts == [] then 0 else (if acts[0] == ClockSm(g) then 1 else 0) + Ticks(acts[1..], g)
  }

  /** How many of them make a cycle due. */
  function Cycles(w: World, acts: seq<Act>, g: nat): nat
    requires InWorld(w, g) && Runnable(acts, w.env)
    decreases acts
  {
    if acts == [] then 0
    else
      RunnableTail(acts, w.env, Do(w, acts[0]).env);
      (if TicksDue(w, acts[0], g) then 1 else 0) + Cycles(Do(w, acts[0]), acts[1..], g)
  }

  lemma DividerFloor(cfg: SmConfig)
    ensures Divider(cfg) >= 256
  {
  }

  lemma DividerPositive(cfg: SmConfig)
    ensures Divider(cfg) > 0
  {
  }

  predicate TicksDue(w: World, act: Act, g: nat)
    requires InWorld(w, g)
  {
    act == ClockSm(g) && Due(w.env.sm[g])
  }

  /** One act: a tick adds 256 of phase, a due cycle removes one divider. */
  lemma ActPhase(w: World, act: Act, g: nat)
    requires InWorld(w, g) && Applies(act, w.env) && w.env.sm[g].clkAccum < Divider(w.env.sm[g].cfg)
    ensures var d, s, r := Divider(w.env.sm[g].cfg), w.env.sm[g], Do(w, act).env.sm[g];
            && r.cfg == s.cfg && r.clkAccum < d
            && s.clkAccum + (if act == ClockSm(g) then 256 else 0) == r.clkAccum + if TicksDue(w, act, g) then d else 0
  {
    hide Do;
    DividerFloor(w.env.sm[g].cfg);
    if act == ClockSm(g) {
      DoClock(w, g);
      ClockAdvancesDivider(w, g);
    } else {
      OtherActKeepsDivider(w, act, g);
    }
  }

  /** Conservation of phase: every tick adds 256, every due cycle removes one
      divider, and the accumulator ends below the divider. */
  lemma {:induction false} PhaseConserved(w: World, acts: seq<Act>, g: nat, d: nat)
    requires InWorld(w, g) && Runnable(acts, w.env) && w.env.sm[g].clkAccum < d == Divider(w.env.sm[g].cfg)
    ensures Run(w, acts).env.sm[g].clkAccum < d
    ensures w.env.sm[g].clkAccum + 256 * Ticks(acts, g) == Cycles(w, acts, g) * d + Run(w, acts).env.sm[g].clkAccum
    decreases acts
  {
    hide Do, TicksDue, Divider;
    if acts != [] {
      var v := Do(w, acts[0]);
      RunnableTail(acts, w.env, v.env);
      ActPhase(w, acts[0], g);
      PhaseConserved(v, acts[1..], g, d);
      Distribute(Cycles(v, acts[1..], g), d);
    }
  }

  /** In n ticks a state machine whose accumulator starts at a < D gets exactly
      floor((a + 256 n) / D) cycles, and the accumulator is the remainder. */
  lemma RateIsExact(w: World, acts: seq<Act>, g: nat)
    requires InWorld(w, g) && Runnable(acts, w.env) && w.env.sm[g].clkAccum < Divider(w.env.sm[g].cfg)
    ensures var total, d := w.env.sm[g].clkAccum + 256 * Ticks(acts, g), Divider(w.env.sm[g].cfg);
            Cycles(w, acts, g) == total / d && Run(w, acts).env.sm[g].clkAccum == total % d
  {
    hide Run, Divider, Cycles, Ticks;
    DividerPositive(w.env.sm[g].cfg);
    PhaseConserved(w, acts, g, Divider(w.env.sm[g].cfg));
    ModUnique(w.env.sm[g].clkAccum + 256 * Ticks(acts, g), Divider(w.env.sm[g].cfg), Cycles(w, acts, g),
              Run(w, acts).env.sm[g].clkAccum);
  }

  /** State machines started in phase with equal dividers stay in phase: after
      any run that ticks them equally often they have had equally many cycles
      and are due on the same next tick. */
  lemma EqualDividersStayInPhase(w: World, acts: seq<Act>, g: nat, h: nat)
    requires InWorld(w, g) && InWorld(w, h) && Runnable(acts, w.env)
    requires Divider(w.env.sm[g].cfg) == Divider(w.env.sm[h].cfg)
    requires w.env.sm[g].clkAccum == w.env.sm[h].clkAccum < Divider(w.env.sm[g].cfg)
    requires Ticks(acts, g) == Ticks(acts, h)
    ensures Cycles(w, acts, g) == Cycles(w, acts, h)
    ensures Run(w, acts).env.sm[g].clkAccum == Run(w, acts).env.sm[h].clkAccum
  {
    hide Run, Divider, Cycles, Ticks, Runnable;
    RateIsExact(w, acts, g);
    RateIsExact(w, acts, h);
  }

  // ---- the exact condition --------------------------------------------------------------

  /** Due cycles in `n` ticks from accumulator `a` with divider `d`. */
  function CyclesFrom(a: nat, d: nat, n: nat): nat
    decreases n
  {
    if n == 0 then 0
    else if a + 256 >= d then 1 + CyclesFrom(a + 256 - d, d, n - 1)
    else CyclesFrom(a + 256, d, n - 1)
  }

  /** The accumulator after them. */
  function PhaseFrom(a: nat, d: nat, n: nat): nat
    decreases n
  {
    if n == 0 then a else PhaseFrom(if a + 256 >= d then a + 256 - d else a + 256, d, n - 1)
  }

  /** Whatever the accumulator, a run's due cycles depend only on its ticks. */
  lemma {:induction false} CyclesAreTicks(w: World, acts: seq<Act>, g: nat)
    requires InWorld(w, g) && Runnable(acts, w.env)
    ensures Cycles(w, acts, g) == CyclesFrom(w.env.sm[g].clkAccum, Divider(w.env.sm[g].cfg), Ticks(acts, g))
    decreases acts
  {
    hide Do, Divider;
    if acts != [] {
      var act, v := acts[0], Do(w, acts[0]);
      RunnableTail(acts, w.env, v.env);
      CyclesAreTicks(v, acts[1..], g);
      if act == ClockSm(g) {
        DoClock(w, g);
        ClockAdvancesDivider(w, g);
      } else {
        OtherActKeepsDivider(w, act, g);
      }
    }
  }

  lemma {:induction false} PhaseFromConserved(a: nat, d: nat, n: nat)
    requires d >= 256 && a < d
    ensures a + 256 * n == CyclesFrom(a, d, n) * d + PhaseFrom(a, d, n) && PhaseFrom(a, d, n) < d
    decreases n
  {
    if n > 0 {
      var due := a + 256 >= d;
      var next := if due then a + 256 - d else a + 256;
      PhaseFromConserved(next, d, n - 1);
      Distribute(CyclesFrom(next, d, n - 1), d);
    }
  }

  /** The right count after `n` ticks. */
  predicate Exact(a: nat, d: nat, n: nat)
    requires d > 0
  {
    CyclesFrom(a, d, n) == (a + 256 * n) / d
  }

  lemma ExactBelow(a: nat, d: nat, n: nat)
    requires d >= 256 && a < d
    ensures Exact(a, d, n)
  {
    PhaseFromConserved(a, d, n);
    ModUnique(a + 256 * n, d, CyclesFrom(a, d, n), PhaseFrom(a, d, n));
  }

  /** One tick brings an accumulator below 2 d - 256 into range. */
  lemma ExactAfterFirst(a: nat, d: nat, n: nat)
    requires d >= 256 && a + 256 < 2 * d && n >= 1
    ensures Exact(a, d, n)
  {
    var due := a + 256 >= d;
    var next := if due then a + 256 - d else a + 256;
    PhaseFromConserved(next, d, n - 1);
    var q := CyclesFrom(next, d, n - 1);
    Distribute(q, d);
    ModUnique(a + 256 * n, d, if due then 1 + q else q, PhaseFrom(next, d, n - 1));
  }

  lemma OneTickShort(a: nat, d: nat)
    requires d >= 256 && a + 256 >= 2 * d
    ensures !Exact(a, d, 1)
  {
    SmallQuotients(a + 256, d, (a + 256) / d);
    assert CyclesFrom(a, d, 1) <= 1;
  }

  /** For every number of ticks, zero included, the count is exact iff the accumulator
      starts below the divider; for every positive number, iff it is below
      2 D - 256, which a change to a smaller divider can break. */
  lemma RateExactIff(a: nat, d: nat)
    requires d >= 256
    ensures (forall n: nat :: Exact(a, d, n)) <==> a < d
    ensures (forall n: nat :: n >= 1 ==> Exact(a, d, n)) <==> a + 256 < 2 * d
  {
    hide Exact;
    if a < d { forall n: nat ensures Exact(a, d, n) { ExactBelow(a, d, n); } } else { NotAtZero(a, d); }
    if a + 256 < 2 * d {
      forall n: nat | n >= 1
        ensures Exact(a, d, n)
      {
        ExactAfterFirst(a, d, n);
      }
    } else {
      OneTickShort(a, d);
    }
  }

  lemma NotAtZero(a: nat, d: nat)
    requires 0 < d <= a
    ensures !Exact(a, d, 0)
  {
    SmallQuotients(a, d, a / d);
  }

  lemma SmallQuotients(n: nat, d: nat, q: int)
    requires d > 0 && q == n / d
    ensures q == 0 <==> n < d
    ensures q == 1 <==> d <= n < 2 * d
  {
    if n < d {
      ModUnique(n, d, 0, n);
    } else if n < 2 * d {
      ModUnique(n, d, 1, n - d);
    } else {
      AtLeastTwo(n, d, q, n % d);
    }
  }

  lemma AtLeastTwo(n: nat, d: nat, q: int, r: int)
    requires n == q * d + r && 0 <= r < d && n >= 2 * d
    ensures q >= 2
  {
    var k := 2 - q;
    assert q * d == 2 * d - k * d;
    assert k >= 1 ==> k * d >= d;
  }

  /** The accumulator never leaves 32 bits. */
  lemma AccumulatorFits(sm: Sm)
    requires sm.cfg.divInt < 65536 && sm.cfg.divFrac < 256 && sm.clkAccum < Divider(sm.cfg)
    ensures sm.clkAccum + 256 < 0x1_0000_0000 && Ticked(sm).clkAccum < Divider(sm.cfg)
  {
    DividerFloor(sm.cfg);
  }
}
