/** What single instructions mean in numbers, and what the decrement loop makes of
    them: the `jmp x--` delay idiom lasts exactly as long as documented. */
module Instructions {
  import opened Options
  import opened Bits
  import opened Isa
  import opened Machine
  import opened Runs
  import Assembler

  lemma {:induction false} ZeroIsZero(w: seq<bool>)
    ensures ToNat(w) == 0 <==> w == Zeros(|w|)
    decreases |w|
  {
    if w != [] {
      ZeroIsZero(w[1..]);
      assert Zeros(|w|)[1..] == Zeros(|w| - 1);
      if !w[0] && w[1..] == Zeros(|w| - 1) {
        assert w == [w[0]] + w[1..];
        assert Zeros(|w|) == [false] + Zeros(|w| - 1);
      }
    }
  }

  /** Numbers tell words apart. */
  lemma {:induction false} NumberDetermines(a: seq<bool>, b: seq<bool>)
    requires |a| == |b| && ToNat(a) == ToNat(b)
    ensures a == b
    decreases |a|
  {
    if a != [] {
      assert a[0] == b[0] && ToNat(a[1..]) == ToNat(b[1..]);
      NumberDetermines(a[1..], b[1..]);
      assert a == [a[0]] + a[1..] && b == [b[0]] + b[1..];
    }
  }

  /** When each JMP condition holds, in numbers. */
  predicate Holds(e: Env, g: nat, cond: nat)
    requires Has(e, g)
  {
    var sm := e.sm[g];
    match cond
    case 0 => true
    case 1 => ToNat(sm.x) == 0
    case 2 => ToNat(sm.x) > 0
    case 3 => ToNat(sm.y) == 0
    case 4 => ToNat(sm.y) > 0
    case 5 => ToNat(sm.x) != ToNat(sm.y)
    case 6 => InputPin(e, g, sm.cfg.jmpPin)
    case _ => sm.osrCount < sm.cfg.pullThresh
  }

  /** The register value after a test: `x--` and `y--` decrement whether or not the
      jump is taken, wrapping below zero. */
  function Decremented(n: nat, on: bool): nat {
    if !on then n else if n == 0 then Pow2(32) - 1 else n - 1
  }

  lemma WordZero(w: Word)
    ensures w == ZERO <==> ToNat(w) == 0
  {
    ZeroIsZero(w);
  }

  lemma WordsEqual(a: Word, b: Word)
    ensures a == b <==> ToNat(a) == ToNat(b)
  {
    if ToNat(a) == ToNat(b) { NumberDetermines(a, b); }
  }

  /** JMP: taken exactly when its condition holds, to its address; the scratch
      registers change only by the documented post-decrement. */
  lemma JmpMeans(e: Env, g: nat, cond: nat, addr: nat)
    requires Has(e, g)
    ensures var r := ExecJmp(e, g, cond, addr);
            && r.jump == (if Holds(e, g, cond) then Some(addr) else None) && !r.stalled
            && ToNat(r.env.sm[g].x) == Decremented(ToNat(e.sm[g].x), cond == 2)
            && ToNat(r.env.sm[g].y) == Decremented(ToNat(e.sm[g].y), cond == 4)
            && r.env.irq == e.irq && r.env.pads == e.pads
  {
    hide ToNat, InputPin, Decrement, Pow2;
    JmpTaken(e, g, cond, addr);
    JmpRegisters(e, g, cond, addr);
  }

  lemma JmpTaken(e: Env, g: nat, cond: nat, addr: nat)
    requires Has(e, g)
    ensures ExecJmp(e, g, cond, addr).jump == if Holds(e, g, cond) then Some(addr) else None
  {
    hide ToNat, InputPin, Decrement, PutKept;
    WordZero(e.sm[g].x);
    WordZero(e.sm[g].y);
    WordsEqual(e.sm[g].x, e.sm[g].y);
  }

  lemma JmpRegisters(e: Env, g: nat, cond: nat, addr: nat)
    requires Has(e, g)
    ensures var r := ExecJmp(e, g, cond, addr);
            && ToNat(r.env.sm[g].x) == Decremented(ToNat(e.sm[g].x), cond == 2)
            && ToNat(r.env.sm[g].y) == Decremented(ToNat(e.sm[g].y), cond == 4)
            && r.env.irq == e.irq && r.env.pads == e.pads
  {
    hide ToNat, InputPin, Decrement, PutKept, Pow2;
    DecrementIsMinusOne(e.sm[g].x);
    DecrementIsMinusOne(e.sm[g].y);
  }

  // ---- IRQ index fields -----------------------------------------------------------------

  /** The flag number of a relative index: the low two bits rotate with the machine. */
  function Rotated(idx: nat, g: nat): nat { (idx / 4) * 4 + (idx + g) % 4 }

  /** What the assembler encodes for an IRQ index is what the engine addresses: own,
      previous or next block with the plain number, or the own block with the number
      shifted by the state machine's. */
  lemma IrqFieldNames(e: Env, g: nat, mode: Assembler.IrqMode, idx: nat)
    requires Has(e, g) && idx < 8
    ensures IrqTarget(e, g, Assembler.ModeField(mode) + idx) ==
            match mode
            case Own => (Some(g / 4), idx)
            case Previous => (e.topo.prev[g / 4], idx)
            case Next => (e.topo.next[g / 4], idx)
            case Relative => (Some(g / 4), Rotated(idx, g))
  {
    hide IrqTarget, IrqPick, Rotated, Has;
    TargetOf(e, g, ModeNumber(mode), idx);
    PickOf(e, g, mode, idx);
  }

  lemma TargetOf(e: Env, g: nat, m: nat, idx: nat)
    requires Has(e, g) && m < 4 && idx < 8
    ensures IrqTarget(e, g, 8 * m + idx) == IrqPick(e, g, m, idx)
  {
    hide IrqPick, Has;
    FieldParts(m, idx);
  }

  lemma PickOf(e: Env, g: nat, mode: Assembler.IrqMode, idx: nat)
    requires Has(e, g) && idx < 8
    ensures IrqPick(e, g, ModeNumber(mode), idx) ==
            match mode
            case Own => (Some(g / 4), idx)
            case Previous => (e.topo.prev[g / 4], idx)
            case Next => (e.topo.next[g / 4], idx)
            case Relative => (Some(g / 4), Rotated(idx, g))
  {
    if mode.Relative? { RotatedSum(idx, g); }
  }

  function ModeNumber(mode: Assembler.IrqMode): (m: nat)
    ensures m < 4 && Assembler.ModeField(mode) == 8 * m
  {
    match mode
    case Own => 0
    case Previous => 1
    case Relative => 2
    case Next => 3
  }

  lemma FieldParts(m: nat, idx: nat)
    requires m < 4 && idx < 8
    ensures (8 * m + idx) % 8 == idx && ((8 * m + idx) / 8) % 4 == m
  {
    ModUnique(8 * m + idx, 8, m, idx);
    SmallMod(m, 4);
  }

  lemma RotatedSum(idx: nat, g: nat)
    ensures (idx % 4 + g % 4) % 4 == (idx + g) % 4
  {
    var q := idx / 4 + g / 4 + (idx % 4 + g % 4) / 4;
    ModUnique(idx + g, 4, q, (idx % 4 + g % 4) % 4);
  }

  // ---- the decrement loop ---------------------------------------------------------------

  /** Slot `o` holds `jmp x-- o [d]` and is not the wrap point. */
  ghost predicate Spins(w: World, g: nat, o: nat, d: nat) {
    && InWorld(w, g) && o < 31 && w.flow[g].top != o && !w.env.sm[g].execPending
    && Decode(w.code[g / 4].insn[o]) == Jmp(2, o)
    && DelaySideOf(w.env.sm[g].cfg, w.code[g / 4].insn[o]).delay == d
  }

  /** The loop's variable part: program counter, X and the pending delay. */
  ghost predicate SpinsAt(w: World, g: nat, o: nat, d: nat, pc: nat, n: nat, k: nat) {
    Spins(w, g, o, d) && w.flow[g].pc == pc && ToNat(w.env.sm[g].x) == n && w.env.sm[g].delay == k
  }

  lemma KeepsSpinning(w: World, v: World, g: nat, o: nat, d: nat)
    requires Spins(w, g, o, d) && InWorld(v, g) && v.flow[g].top == w.flow[g].top
    requires v.env.sm[g].cfg == w.env.sm[g].cfg && !v.env.sm[g].execPending
    requires v.code[g / 4].insn == w.code[g / 4].insn
    ensures Spins(v, g, o, d)
  {
  }

  /** A cycle that counts a delay down. */
  lemma SpinDelays(w: World, g: nat, o: nat, d: nat, pc: nat, n: nat, k: nat)
    requires SpinsAt(w, g, o, d, pc, n, k) && k > 0
    ensures SpinsAt(SmCycle(w, g), g, o, d, pc, n, k - 1)
  {
    hide PresentInsn, Decode, DelaySideOf, ToNat;
    var sm := Autopull(w.env.sm[g]);
    assert LocalTo(w.env.sm[g], sm) && sm.x == w.env.sm[g].x;
    KeepsSpinning(w, SmCycle(w, g), g, o, d);
  }

  /** Presenting the JMP. */
  lemma PresentSpins(w: World, g: nat, o: nat, d: nat, n: nat)
    requires SpinsAt(w, g, o, d, o, n, 0)
    ensures var r := PresentInsn(w, g, w.code[g / 4].insn[o], false);
            && r.flow[g] == w.flow[g].(pc := if n > 0 then o else o + 1)
            && ToNat(r.env.sm[g].x) == Decremented(n, true) && r.env.sm[g].delay == d
            && r.env.sm[g].cfg == w.env.sm[g].cfg && !r.env.sm[g].execPending
  {
    hide ExecJmp, ApplySide, Decode, DelaySideOf, CountFetch, ToNat, Decremented;
    JmpMeans(w.env, g, 2, o);
    SmallMod(o + 1, 32);
    var r := ExecJmp(w.env, g, 2, o);
    SideKeepsX(r.env, g, DelaySideOf(w.env.sm[g].cfg, w.code[g / 4].insn[o]));
  }

  lemma SideKeepsX(e: Env, g: nat, ds: DelaySide)
    requires Has(e, g)
    ensures ApplySide(e, g, ds).sm[g].x == e.sm[g].x
  {
    hide ResolvePads, Span, SpanOnes;
  }

  /** A cycle that presents the JMP: loop while X is not zero, else fall through. */
  lemma SpinJumps(w: World, g: nat, o: nat, d: nat, n: nat)
    requires SpinsAt(w, g, o, d, o, n, 0)
    ensures SpinsAt(SmCycle(w, g), g, o, d, if n > 0 then o else o + 1, Decremented(n, true), d)
  {
    hide PresentInsn, Decode, DelaySideOf, ToNat;
    var sm := Autopull(w.env.sm[g]);
    assert LocalTo(w.env.sm[g], sm) && sm.x == w.env.sm[g].x;
    var w1 := WithSm(w, g, sm);
    KeepsSpinning(w, w1, g, o, d);
    SmallMod(o, 32);
    PresentSpins(w1, g, o, d, n);
    CycleKeepsCode(w, g);
    KeepsSpinning(w, SmCycle(w, g), g, o, d);
  }

  /** The state machine `j` cycles later. */
  function Later(w: World, g: nat, j: nat): (r: World)
    requires InWorld(w, g)
    ensures InWorld(r, g)
    decreases j
  {
    if j == 0 then w else Later(SmCycle(w, g), g, j - 1)
  }

  /** Delays of one presentation run out one cycle at a time. */
  lemma {:induction false} DelayRunsOut(w: World, g: nat, o: nat, d: nat, pc: nat, n: nat, k: nat, j: nat)
    requires SpinsAt(w, g, o, d, pc, n, k) && j <= k
    ensures SpinsAt(Later(w, g, j), g, o, d, pc, n, k - j)
    decreases j
  {
    hide SmCycle, Spins;
    assert InWorld(w, g) by { SpinsInWorld(w, g, o, d); }
    if j > 0 {
      SpinDelays(w, g, o, d, pc, n, k);
      DelayRunsOut(SmCycle(w, g), g, o, d, pc, n, k - 1, j - 1);
    }
  }

  lemma SpinsInWorld(w: World, g: nat, o: nat, d: nat)
    requires Spins(w, g, o, d)
    ensures InWorld(w, g)
  {
  }

  lemma {:induction false} LaterAdds(w: World, g: nat, i: nat, j: nat)
    requires InWorld(w, g)
    ensures Later(w, g, i + j) == Later(Later(w, g, i), g, j)
    decreases i
  {
    hide SmCycle;
    if i > 0 { LaterAdds(SmCycle(w, g), g, i - 1, j); }
  }

  lemma LaterOne(w: World, g: nat)
    requires InWorld(w, g)
    ensures Later(w, g, 0) == w && Later(w, g, 1) == SmCycle(w, g)
  {
    hide SmCycle;
  }

  /** One presentation and the first `i` of its delay cycles. */
  lemma OneRound(w: World, g: nat, o: nat, d: nat, n: nat, i: nat)
    requires SpinsAt(w, g, o, d, o, n, 0) && i <= d
    ensures InWorld(w, g)
    ensures SpinsAt(Later(w, g, 1 + i), g, o, d, if n > 0 then o else o + 1, Decremented(n, true), d - i)
  {
    hide SmCycle, Spins, Later, Decremented;
    SpinsInWorld(w, g, o, d);
    SpinJumps(w, g, o, d, n);
    LaterOne(w, g);
    LaterAdds(w, g, 1, i);
    DelayRunsOut(SmCycle(w, g), g, o, d, if n > 0 then o else o + 1, Decremented(n, true), d, i);
  }

  lemma OneMoreRound(n: nat, d: nat)
    ensures (n + 1) * (d + 1) == (1 + d) + n * (d + 1)
  {
  }

  lemma AtPc(w: World, g: nat, o: nat, d: nat, pc: nat, n: nat, k: nat)
    requires SpinsAt(w, g, o, d, pc, n, k)
    ensures InWorld(w, g) && w.flow[g].pc == pc
  {
    hide Decode, DelaySideOf;
  }

  /** Starting with X = n and no delay pending, `loop: jmp x-- loop [d]` is left after
      exactly (n + 1) (d + 1) cycles, with X wrapped to its maximum. */
  lemma {:induction false} DelayLoopLasts(w: World, g: nat, o: nat, d: nat, n: nat, k: nat)
    requires SpinsAt(w, g, o, d, o, n, 0) && k == (n + 1) * (d + 1)
    ensures InWorld(w, g) && SpinsAt(Later(w, g, k), g, o, d, o + 1, Pow2(32) - 1, 0)
    decreases n
  {
    hide SpinsAt, Later, Pow2;
    OneRound(w, g, o, d, n, d);
    OneMoreRound(n, d);
    if n > 0 {
      DelayLoopLasts(Later(w, g, 1 + d), g, o, d, n - 1, k - (1 + d));
      LaterAdds(w, g, 1 + d, k - (1 + d));
    }
  }

  /** And not before: through the first n (d + 1) cycles the program counter stays
      on the loop. */
  lemma {:induction false} DelayLoopHolds(w: World, g: nat, o: nat, d: nat, n: nat, j: nat)
    requires SpinsAt(w, g, o, d, o, n, 0) && j <= n * (d + 1)
    ensures InWorld(w, g) && Later(w, g, j).flow[g].pc == o
    decreases n
  {
    hide SpinsAt, Later;
    AtPc(w, g, o, d, o, n, 0);
    if j == 0 {
      LaterOne(w, g);
    } else {
      assert n > 0;
      OneMoreRound(n - 1, d);
      if j <= d + 1 {
        OneRound(w, g, o, d, n, j - 1);
        AtPc(Later(w, g, j), g, o, d, o, n - 1, d - (j - 1));
      } else {
        OneRound(w, g, o, d, n, d);
        LaterAdds(w, g, 1 + d, j - (d + 1));
        DelayLoopHolds(Later(w, g, 1 + d), g, o, d, n - 1, j - (d + 1));
      }
    }
  }
}
