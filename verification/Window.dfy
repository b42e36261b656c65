/** A state machine never leaves its own program, whatever the rest of the block's
    instruction memory holds. */
module Window {
  import opened Bits
  import opened Isa
  import opened Machine
  import opened Runs

  /** Where a program sits: `n` words from slot `a`. */
  datatype Home = Home(a: nat, n: nat) {
    predicate Has(i: int) { a <= i < a + n }

    predicate Whole() { n == 32 }
  }

  /** The instruction moves the program counter only inside the program; a program
      that fills the memory may also write it freely. */
  predicate Within(op: Op, p: Home) {
    || p.Whole()
    || (op.Jmp? && p.Has(op.addr))
    || (!op.Jmp? && !(op.Out? && op.dest == 5) && !(op.Mov? && op.dest == 5))
  }

  /** The program's own wrap window and jumps keep the counter inside it, and its
      last word does not fall through. */
  ghost predicate Confined(w: World, g: nat, p: Home) {
    && InWorld(w, g) && p.n > 0 && p.a + p.n <= 32
    && p.Has(w.flow[g].pc) && p.Has(w.flow[g].bottom)
    && (forall i :: p.Has(i) ==> Within(WordAt(w, g, i), p))
    && (p.Whole() || w.flow[g].top == p.a + p.n - 1 || Always(WordAt(w, g, p.a + p.n - 1)))
  }

  predicate Always(op: Op) { op.Jmp? && op.cond == 0 }

  /** The operation in slot `i` of state machine `g`'s block. */
  function WordAt(w: World, g: nat, i: int): Op
    requires InWorld(w, g)
  {
    if 0 <= i < 32 then Decode(w.code[g / 4].insn[i]) else Jmp(0, 0)
  }

  /** Jumps go to a JMP's address, or to a slot written to the counter. */
  lemma JumpRange(e: Env, g: nat, op: Op)
    requires Machine.Has(e, g) && Encodable(op)
    ensures var r := ExecOp(e, g, op);
            && (r.jump.Some? ==> r.jump.value < 32)
            && (r.jump.Some? && op.Jmp? ==> r.jump.value == op.addr)
            && (r.jump.Some? ==> op.Jmp? || (op.Out? && op.dest == 5) || (op.Mov? && op.dest == 5))
            && (Always(op) ==> r.jump.Some? && !r.stalled)
  {
    hide ExecWait, ExecIn, ExecIrq, ExecPull, ExecPush, ExecRxFifo, ExecSet, DrivePins, DrivePindirs, ReleaseOutPins, ReadSource;
    assert Pow2(5) == 32;
  }

  lemma StepKeepsPc(f: Flow, r: Step, op: Op, p: Home)
    requires p.n > 0 && p.a + p.n <= 32 && p.Has(f.pc) && p.Has(f.bottom) && Within(op, p)
    requires p.Whole() || f.top == p.a + p.n - 1 || f.pc < p.a + p.n - 1 || Always(op)
    requires r.jump.Some? ==> r.jump.value < 32
    requires r.jump.Some? && op.Jmp? ==> r.jump.value == op.addr
    requires r.jump.Some? ==> op.Jmp? || (op.Out? && op.dest == 5) || (op.Mov? && op.dest == 5)
    requires Always(op) ==> r.jump.Some? && !r.stalled
    ensures p.Has(RetireFlow(f, r, false).pc)
  {
    if !r.stalled && r.jump.None? && f.pc != f.top {
      if f.pc + 1 < 32 { SmallMod(f.pc + 1, 32); }
    }
  }

  /** The fetched word is one of the program's own. */
  lemma FetchWithin(w: World, g: nat, p: Home)
    requires Confined(w, g, p) && !w.env.sm[g].execPending
    ensures Decode(Presented(w, g)) == WordAt(w, g, w.flow[g].pc) && Within(WordAt(w, g, w.flow[g].pc), p)
  {
    hide Decode, Within, Always;
    SmallMod(w.flow[g].pc, 32);
  }

  /** What the step of a confined machine may count on. */
  lemma ConfinedFlow(w: World, g: nat, p: Home)
    requires Confined(w, g, p)
    ensures InWorld(w, g) && p.n > 0 && p.a + p.n <= 32 && p.Has(w.flow[g].pc) && p.Has(w.flow[g].bottom)
    ensures p.Whole() || w.flow[g].top == p.a + p.n - 1 || w.flow[g].pc < p.a + p.n - 1 || Always(WordAt(w, g, w.flow[g].pc))
  {
    hide Decode, Within, Always;
  }

  lemma PresentedJump(w: World, g: nat, insn: Insn)
    requires InWorld(w, g)
    ensures var r, x := ExecOne(w.env, g, insn), ExecOp(w.env, g, Decode(insn));
            r.stalled == x.stalled && r.jump == x.jump
    ensures PresentInsn(w, g, insn, false).flow[g] == RetireFlow(w.flow[g], ExecOne(w.env, g, insn), false)
  {
    hide ExecOp, ApplySide, Decode, DelaySideOf, CountFetch, Retire, RetireFlow;
  }

  /** Presenting the fetched instruction. */
  lemma PresentConfined(w: World, g: nat, p: Home)
    requires Confined(w, g, p) && !w.env.sm[g].execPending
    ensures p.Has(PresentInsn(w, g, Presented(w, g), false).flow[g].pc)
  {
    ConfinedFlow(w, g, p);
    hide ExecOp, ExecOne, PresentInsn, Presented, RetireFlow, Decode, Within, Always, Confined, WordAt;
    FetchWithin(w, g, p);
    var insn := Presented(w, g);
    PresentedJump(w, g, insn);
    JumpRange(w.env, g, Decode(insn));
    StepKeepsPc(w.flow[g], ExecOne(w.env, g, insn), Decode(insn), p);
  }

  lemma StaysConfined(w: World, v: World, g: nat, p: Home)
    requires Confined(w, g, p) && InWorld(v, g) && p.Has(v.flow[g].pc)
    requires v.flow[g].bottom == w.flow[g].bottom && v.flow[g].top == w.flow[g].top
    requires v.code[g / 4].insn == w.code[g / 4].insn
    ensures Confined(v, g, p)
  {
    hide Decode, Within, Always;
    forall i
      ensures WordAt(v, g, i) == WordAt(w, g, i)
    {
    }
  }

  lemma CycleConfined(w: World, g: nat, p: Home)
    requires Confined(w, g, p) && !w.env.sm[g].execPending
    ensures Confined(SmCycle(w, g), g, p)
  {
    CycleKeepsCode(w, g);
    hide PresentInsn, Decode, Within, Always;
    var sm := Autopull(w.env.sm[g]);
    assert LocalTo(w.env.sm[g], sm);
    if sm.delay == 0 {
      var w1 := WithSm(w, g, sm);
      StaysConfined(w, w1, g, p);
      PresentConfined(w1, g, p);
      PresentKeepsWrap(w1, g, Presented(w1, g));
    }
    StaysConfined(w, SmCycle(w, g), g, p);
  }

  lemma PresentKeepsWrap(w: World, g: nat, insn: Insn)
    requires InWorld(w, g)
    ensures var f := PresentInsn(w, g, insn, false).flow[g]; f.bottom == w.flow[g].bottom && f.top == w.flow[g].top
  {
    hide ExecOne;
  }

  /** Every act keeps a machine with a free injection slot inside its program. */
  lemma ActConfined(w: World, act: Act, g: nat, p: Home)
    requires Confined(w, g, p) && !w.env.sm[g].execPending && Applies(act, w.env)
    ensures Confined(Do(w, act), g, p)
  {
    hide SmCycle, Clock, DoEnv, Decode, Confined, Within, Always;
    ConfinedWorld(w, g, p);
    DoKeepsCode(w, act, g / 4);
    if act == ClockSm(g) {
      ClockConfined(w, g, p);
    } else {
      if act.ClockSm? { OtherFlow(w, act.g, g); }
      SameFlowConfined(w, Do(w, act), g, p);
    }
  }

  lemma SameFlowConfined(w: World, v: World, g: nat, p: Home)
    requires Confined(w, g, p) && InWorld(v, g) && v.flow[g] == w.flow[g] && v.code[g / 4].insn == w.code[g / 4].insn
    ensures Confined(v, g, p)
  {
    StaysConfined(w, v, g, p);
    hide Decode, Within, Always;
  }

  lemma ClockConfined(w: World, g: nat, p: Home)
    requires Confined(w, g, p) && !w.env.sm[g].execPending
    ensures Confined(Clock(w, g), g, p)
  {
    hide SmCycle, Confined;
    ConfinedWorld(w, g, p);
    var w1 := WithSm(w, g, Ticked(w.env.sm[g]));
    StaysHome(w, w1, g, p);
    if Due(w.env.sm[g]) && w.env.sm[g].enabled {
      CycleConfined(w1, g, p);
      StaysHome(SmCycle(w1, g), Clock(w, g), g, p);
    }
  }

  lemma ConfinedWorld(w: World, g: nat, p: Home)
    requires Confined(w, g, p)
    ensures InWorld(w, g)
  {
  }

  /** Changing a state machine's record leaves it at home. */
  lemma StaysHome(w: World, v: World, g: nat, p: Home)
    requires Confined(w, g, p) && InWorld(v, g) && v.flow == w.flow && v.code == w.code
    ensures Confined(v, g, p)
  {
    StaysConfined(w, v, g, p);
  }
}
