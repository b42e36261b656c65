/** Loading a program at an offset, and why the offset does not matter: two
    loads of a relocatable program run in lock step. */
module Relocate {
  import opened Isa
  import opened Options
  import opened Machine
  import opened Runs

  /** The loader's per-word rewrite: JMP targets move with the program. */
  function RelocateWord(insn: Insn, offset: nat): Insn {
    if insn / 8192 == 0 && offset != 0 then insn - insn % 32 + (insn % 32 + offset) % 32 else insn
  }

  /** An assembled program, as far as the loader looks at it. */
  datatype Program = Program(
    ok: bool, insns: seq<Insn>, wrapBottom: nat, wrapTop: nat,
    sideBits: nat, sideOpt: bool, sidePindirs: bool)

  function LoadedWord(c: Code, offset: nat, prog: seq<Insn>, i: nat): Insn
    requires i < 32
  {
    if offset <= i < offset + |prog| then RelocateWord(prog[i - offset], offset) else c.insn[i]
  }

  /** The loader's loop: a relocated copy of the program. */
  method RelocateAll(prog: seq<Insn>, offset: nat) returns (r: seq<Insn>)
    ensures |r| == |prog| && forall i :: 0 <= i < |prog| ==> r[i] == RelocateWord(prog[i], offset)
  {
    hide RelocateWord;
    r := [];
    for i := 0 to |prog|
      invariant |r| == i && forall k :: 0 <= k < i ==> r[k] == RelocateWord(prog[k], offset)
    {
      r := r + [RelocateWord(prog[i], offset)];
    }
  }

  /** Memory after pio_sim_load of the relocated words. */
  function LoadMem(c: Code, offset: nat, prog: seq<Insn>): (r: Code)
    requires offset + |prog| <= 32
    ensures forall j :: 0 <= j < |prog| ==> r.insn[offset + j] == RelocateWord(prog[j], offset) && r.used[offset + j]
    ensures forall i :: 0 <= i < 32 && !(offset <= i < offset + |prog|) ==> r.insn[i] == c.insn[i] && r.used[i] == c.used[i]
  {
    Code(seq<Insn>(32, i requires 0 <= i < 32 => LoadedWord(c, offset, prog, i)),
         seq(32, i requires 0 <= i < 32 => if offset <= i < offset + |prog| then true else c.used[i]),
         c.unwritten)
  }

  /** pio_asm_load_program. */
  function Load(w: World, g: nat, offset: nat, p: Program): (r: Option<World>)
    requires InWorld(w, g)
    ensures r.Some? ==> InWorld(r.value, g)
    ensures r.Some? <==> p.ok && offset + |p.insns| <= 32 && p.wrapBottom < |p.insns| && p.wrapTop < |p.insns|
  {
    if !p.ok || offset + |p.insns| > 32 || p.wrapBottom >= |p.insns| || p.wrapTop >= |p.insns| then None
    else
      var sm := w.env.sm[g];
      Some(World(
        PutSm(w.env, g, sm.(cfg := sm.cfg.(sideBits := p.sideBits, sideOpt := p.sideOpt, sidePindirs := p.sidePindirs))),
        w.flow[g := Flow(offset, offset + p.wrapBottom, offset + p.wrapTop)],
        w.code[g / 4 := LoadMem(w.code[g / 4], offset, p.insns)]))
  }

  // ---- which programs are position independent --------------------------------

  /** Neither the program counter nor an injected instruction is written. */
  predicate StaysPut(op: Op) {
    && !op.Jmp?
    && (op.Out? ==> op.dest != 5 && op.dest != 7)
    && (op.Mov? ==> op.dest != 4 && op.dest != 5)
  }

  predicate Local(op: Op, n: nat) {
    (op.Jmp? && op.addr < n) || StaysPut(op)
  }

  /** Every jump lands inside, nothing else moves the program counter, and the
      last slot does not fall through to what follows the program. */
  predicate Relocatable(prog: seq<Insn>, bottom: nat, top: nat) {
    && bottom < |prog| && top < |prog| <= 32
    && (forall j :: 0 <= j < |prog| ==> Local(Decode(prog[j]), |prog|))
    && (top == |prog| - 1 || (Decode(prog[|prog| - 1]).Jmp? && Decode(prog[|prog| - 1]).cond == 0))
  }

  function JumpBy(jump: Option<nat>, d: nat): Option<nat> {
    if jump.Some? then Some(jump.value + d) else None
  }

  lemma DecodeRelocated(insn: Insn, offset: nat)
    requires Decode(insn).Jmp? && Decode(insn).addr + offset < 32
    ensures Decode(RelocateWord(insn, offset)) == Jmp(Decode(insn).cond, Decode(insn).addr + offset)
    ensures DelayField(RelocateWord(insn, offset)) == DelayField(insn)
  {
    var lo, hi, field := insn % 32, (insn / 32) % 8, (insn / 256) % 32;
    WordSplit(insn);
    SmallMod(lo + offset, 32);
    assert RelocateWord(insn, offset) == (lo + offset) + hi * 32 + field * 256 + 0 * 8192;
    Slots(lo + offset, hi, field, 0);
  }

  /** The target address only decides where a taken jump goes. */
  lemma JmpTarget(e: Env, g: nat, cond: nat, addr: nat, offset: nat)
    requires Has(e, g) && cond < 8 && addr + offset < 32
    ensures var r, r' := ExecOp(e, g, Jmp(cond, addr)), ExecOp(e, g, Jmp(cond, addr + offset));
            r' == Step(r.env, r.stalled, JumpBy(r.jump, offset))
  {
  }

  /** A relocated word does what the original does, its jump target moved. */
  lemma ExecRelocated(e: Env, g: nat, insn: Insn, n: nat, offset: nat)
    requires Has(e, g) && Local(Decode(insn), n) && n + offset <= 32
    ensures var r, r' := ExecOne(e, g, insn), ExecOne(e, g, RelocateWord(insn, offset));
            && r'.env == r.env && r'.stalled == r.stalled
            && r'.jump == (if Decode(insn).Jmp? then JumpBy(r.jump, offset) else r.jump)
    ensures DelayField(RelocateWord(insn, offset)) == DelayField(insn)
  {
    hide ExecOp, ApplySide, DelayField;
    if Decode(insn).Jmp? {
      DecodeRelocated(insn, offset);
      JmpTarget(e, g, Decode(insn).cond, Decode(insn).addr, offset);
    } else {
      assert insn / 8192 != 0;
    }
  }

  /** Instructions that stay put neither jump nor touch the injection slot. */
  lemma StaysPutEffect(e: Env, g: nat, op: Op)
    requires Has(e, g) && Encodable(op) && (StaysPut(op) || op.Jmp?)
    ensures var r := ExecOp(e, g, op);
            && SameSlot(e.sm[g], r.env.sm[g])
            && (r.jump.Some? ==> op.Jmp? && r.jump.value == op.addr)
            && (op.Jmp? && op.cond == 0 ==> r.jump.Some?)
            && (op.Jmp? ==> !r.stalled)
  {
  }

  lemma StaysPutOne(e: Env, g: nat, insn: Insn)
    requires Has(e, g) && (StaysPut(Decode(insn)) || Decode(insn).Jmp?)
    ensures var r, op := ExecOne(e, g, insn), Decode(insn);
            && SameSlot(e.sm[g], r.env.sm[g])
            && (r.jump.Some? ==> op.Jmp? && r.jump.value == op.addr)
            && (op.Jmp? && op.cond == 0 ==> r.jump.Some?)
  {
    hide ExecOp, ApplySide;
    StaysPutEffect(e, g, Decode(insn));
  }

  // ---- lock step ---------------------------------------------------------------

  /** A program loaded at `a` in one world and at `b` in the other. */
  datatype Placement = Placement(prog: seq<Insn>, bottom: nat, top: nat, a: nat, b: nat)

  ghost predicate LoadedAt(c: Code, prog: seq<Insn>, offset: nat) {
    && offset + |prog| <= 32
    && forall j :: 0 <= j < |prog| ==> c.insn[offset + j] == RelocateWord(prog[j], offset) && c.used[offset + j]
  }

  /** Both program counters are at the same slot of the program, and both wrap
      windows are the program's own. */
  predicate SameSlotFlow(p: Placement, f: Flow, f': Flow) {
    && p.a <= f.pc < p.a + |p.prog|
    && f'.pc + p.a == f.pc + p.b
    && f.bottom == p.a + p.bottom && f.top == p.a + p.top
    && f'.bottom == p.b + p.bottom && f'.top == p.b + p.top
  }

  ghost predicate Placed(w: World, w': World, g: nat, p: Placement)
    requires InWorld(w, g) && InWorld(w', g)
  {
    && Relocatable(p.prog, p.bottom, p.top)
    && LoadedAt(w.code[g / 4], p.prog, p.a) && LoadedAt(w'.code[g / 4], p.prog, p.b)
    && SameSlotFlow(p, w.flow[g], w'.flow[g])
  }

  /** The bisimulation: identical state except where code sits; every state
      machine either runs a placed program or is disabled. */
  ghost predicate LockStep(w: World, w': World, ps: seq<Option<Placement>>) {
    && w.Valid() && w'.Valid() && w.env == w'.env && |ps| == |w.env.sm|
    && (forall g :: 0 <= g < |ps| && ps[g].Some? ==> Placed(w, w', g, ps[g].value))
    && (forall g :: 0 <= g < |ps| && ps[g].None? ==> !w.env.sm[g].enabled)
    && (forall g :: 0 <= g < |ps| && w.env.sm[g].execPending ==> StaysPut(Decode(w.env.sm[g].execInsn)))
  }

  /** One presented instruction keeps a placed state machine in lock step. */
  lemma FlowLockStep(p: Placement, f: Flow, f': Flow, r: Step, r': Step, op: Op)
    requires Relocatable(p.prog, p.bottom, p.top) && SameSlotFlow(p, f, f')
    requires p.a + |p.prog| <= 32 && p.b + |p.prog| <= 32
    requires op == Decode(p.prog[f.pc - p.a])
    requires r.stalled == r'.stalled
    requires r.jump.Some? ==> op.Jmp? && r.jump.value == op.addr + p.a && r'.jump == Some(op.addr + p.b)
    requires r.jump.None? ==> r'.jump.None? && !(op.Jmp? && op.cond == 0)
    ensures SameSlotFlow(p, RetireFlow(f, r, false), RetireFlow(f', r', false))
  {
    hide Decode;
    if !r.stalled && r.jump.None? && f.pc != f.top {
      assert f.pc - p.a < |p.prog| - 1;
      SmallMod(f.pc + 1, 32);
      SmallMod(f'.pc + 1, 32);
    }
  }

  /** Presenting the next instruction in both worlds keeps them in lock step. */
  ghost predicate Together(w: World, w': World, v: World, v': World, g: nat, p: Placement)
    requires InWorld(w, g) && InWorld(w', g) && InWorld(v, g) && InWorld(v', g)
  {
    && v.env == v'.env && v.code == w.code && v'.code == w'.code
    && v.flow == w.flow[g := v.flow[g]] && v'.flow == w'.flow[g := v'.flow[g]]
    && SameSlotFlow(p, v.flow[g], v'.flow[g])
    && (v.env.sm[g].execPending ==> w.env.sm[g].execPending && v.env.sm[g].execInsn == w.env.sm[g].execInsn)
  }

  lemma InjectedLockStep(w: World, w': World, g: nat, p: Placement, insn: Insn)
    requires InWorld(w, g) && InWorld(w', g) && w.env == w'.env && Placed(w, w', g, p)
    requires StaysPut(Decode(insn))
    ensures Together(w, w', PresentInsn(w, g, insn, true), PresentInsn(w', g, insn, true), g, p)
  {
    hide ExecOne, Decode;
    StaysPutOne(w.env, g, insn);
  }

  lemma MemoryLockStep(w: World, w': World, g: nat, p: Placement, j: nat)
    requires InWorld(w, g) && InWorld(w', g) && w.env == w'.env && Placed(w, w', g, p)
    requires !w.env.sm[g].execPending && j < |p.prog| && w.flow[g].pc == p.a + j
    ensures Together(w, w', PresentInsn(w, g, RelocateWord(p.prog[j], p.a), false),
                     PresentInsn(w', g, RelocateWord(p.prog[j], p.b), false), g, p)
  {
    hide ExecOne, Decode, RelocateWord, DelayField, Relocatable;
    var e, insn := w.env, p.prog[j];
    LocalWord(p, j);
    FetchIsLoaded(w, g, p.prog, p.a, j);
    FetchIsLoaded(w', g, p.prog, p.b, j);
    ExecRelocated(e, g, insn, |p.prog|, p.a);
    ExecRelocated(e, g, insn, |p.prog|, p.b);
    StaysPutOne(e, g, insn);
    FlowLockStep(p, w.flow[g], w'.flow[g], ExecOne(e, g, RelocateWord(insn, p.a)),
                 ExecOne(e, g, RelocateWord(insn, p.b)), Decode(insn));
  }

  lemma FetchIsLoaded(w: World, g: nat, prog: seq<Insn>, offset: nat, j: nat)
    requires InWorld(w, g) && LoadedAt(w.code[g / 4], prog, offset) && j < |prog| && w.flow[g].pc == offset + j
    ensures CountFetch(w, g) == w.code
    ensures w.code[g / 4].insn[w.flow[g].pc % 32] == RelocateWord(prog[j], offset)
  {
    hide RelocateWord;
    SmallMod(offset + j, 32);
    var c := w.code[g / 4];
    assert c.insn[offset + j] == RelocateWord(prog[j], offset) && c.used[offset + j];
  }

  lemma LocalWord(p: Placement, j: nat)
    requires Relocatable(p.prog, p.bottom, p.top) && j < |p.prog|
    ensures Local(Decode(p.prog[j]), |p.prog|)
  {
  }

  /** A cycle of a placed state machine keeps both worlds in lock step. */
  lemma CycleLockStep(w: World, w': World, g: nat, p: Placement)
    requires InWorld(w, g) && InWorld(w', g) && w.env == w'.env && Placed(w, w', g, p)
    requires w.env.sm[g].execPending ==> StaysPut(Decode(w.env.sm[g].execInsn))
    ensures Together(w, w', SmCycle(w, g), SmCycle(w', g), g, p)
  {
    hide PresentInsn, Decode, RelocateWord, Relocatable;
    var sm := Autopull(w.env.sm[g]);
    if sm.delay == 0 {
      var w1, w1' := WithSm(w, g, sm), WithSm(w', g, sm);
      if sm.execPending {
        InjectedLockStep(w1, w1', g, p, sm.execInsn);
      } else {
        var j := w.flow[g].pc - p.a;
        FetchIsLoaded(w1, g, p.prog, p.a, j);
        FetchIsLoaded(w1', g, p.prog, p.b, j);
        MemoryLockStep(w1, w1', g, p, j);
      }
    }
  }

  lemma ClockLockStep(w: World, w': World, g: nat, p: Placement)
    requires InWorld(w, g) && InWorld(w', g) && w.env == w'.env && Placed(w, w', g, p)
    requires w.env.sm[g].execPending ==> StaysPut(Decode(w.env.sm[g].execInsn))
    ensures Together(w, w', Clock(w, g), Clock(w', g), g, p)
  {
    hide SmCycle, Decode, RelocateWord, Relocatable;
    var sm := w.env.sm[g];
    if Due(sm) && sm.enabled {
      CycleLockStep(WithSm(w, g, Ticked(sm)), WithSm(w', g, Ticked(sm)), g, p);
    }
  }

  /** Only placed state machines may be switched on. */
  predicate Tame(act: Act, ps: seq<Option<Placement>>) {
    act.SetEnabled? && act.on ==> act.g < |ps| && ps[act.g].Some?
  }

  lemma EnvActLockStep(w: World, w': World, ps: seq<Option<Placement>>, act: Act)
    requires LockStep(w, w', ps) && Applies(act, w.env) && Tame(act, ps) && !act.ClockSm?
    ensures LockStep(Do(w, act), Do(w', act), ps)
  {
    hide Decode, RelocateWord, Relocatable, DoEnv, LoadedAt, SameSlotFlow;
    forall g | 0 <= g < |ps|
      ensures var r := DoEnv(w.env, act);
              && SameSlot(w.env.sm[g], r.sm[g])
              && (r.sm[g].enabled ==> w.env.sm[g].enabled || (act.SetEnabled? && act.on && act.g == g))
    {
      EnvActFrame(w.env, act, g);
    }
  }

  lemma ClockActLockStep(w: World, w': World, ps: seq<Option<Placement>>, g: nat)
    requires LockStep(w, w', ps) && g < |ps|
    ensures LockStep(Clock(w, g), Clock(w', g), ps)
  {
    hide Decode, RelocateWord, Relocatable, Clock, LoadedAt, SameSlotFlow;
    if ps[g].Some? {
      ClockLockStep(w, w', g, ps[g].value);
    } else {
      IdleClock(w, g);
      IdleClock(w', g);
    }
  }

  lemma DoLockStep(w: World, w': World, ps: seq<Option<Placement>>, act: Act)
    requires LockStep(w, w', ps) && Applies(act, w.env) && Tame(act, ps)
    ensures LockStep(Do(w, act), Do(w', act), ps)
  {
    hide LockStep, Clock, DoEnv, Tame;
    if act.ClockSm? {
      InShape(w, w', ps);
      ClockActLockStep(w, w', ps, act.g);
    } else {
      EnvActLockStep(w, w', ps, act);
    }
  }

  lemma InShape(w: World, w': World, ps: seq<Option<Placement>>)
    requires LockStep(w, w', ps)
    ensures w.Valid() && w'.Valid() && w.env == w'.env && |ps| == |w.env.sm|
  {
  }

  /** For every run, a relocatable program behaves the same wherever it is
      loaded: all registers, FIFOs, IRQ flags and pads agree after every act,
      program counters differ by the offset and stay inside the program. */
  lemma {:induction false} RelocationPreservesRuns(w: World, w': World, ps: seq<Option<Placement>>, acts: seq<Act>)
    requires LockStep(w, w', ps) && Runnable(acts, w.env)
    requires forall i :: 0 <= i < |acts| ==> Tame(acts[i], ps)
    ensures LockStep(Run(w, acts), Run(w', acts), ps)
    decreases acts
  {
    hide LockStep, Tame, Do;
    InShape(w, w', ps);
    if acts != [] {
      var act := acts[0];
      DoLockStep(w, w', ps, act);
      RunnableTail(acts, w.env, Do(w, act).env);
      RelocationPreservesRuns(Do(w, act), Do(w', act), ps, acts[1..]);
    }
  }

  /** Loading one program at two offsets into the same world starts the lock
      step, when every other state machine is off and nothing is injected. */
  lemma LoadsStartInLockStep(w: World, g: nat, p: Program, a: nat, b: nat)
    requires InWorld(w, g) && Relocatable(p.insns, p.wrapBottom, p.wrapTop)
    requires Load(w, g, a, p).Some? && Load(w, g, b, p).Some?
    requires forall i :: 0 <= i < |w.env.sm| ==> !w.env.sm[i].execPending && (i != g ==> !w.env.sm[i].enabled)
    ensures LockStep(Load(w, g, a, p).value, Load(w, g, b, p).value,
                     seq(|w.env.sm|, _ => None)[g := Some(Placement(p.insns, p.wrapBottom, p.wrapTop, a, b))])
  {
    hide Decode, RelocateWord, Relocatable;
  }
}
