/** IRQ flags as a handshake between state machines, across linked blocks:
    `irq wait` raises once and waits to be cleared, and one raise never releases
    two `wait 1 irq`s. */
module Handshake {
  import opened Isa
  import opened Options
  import opened Machine
  import opened Runs

  /** State machine `h` is about to present: its cycle is due and no delay runs. */
  predicate Presents(w: World, act: Act, h: nat)
    requires InWorld(w, h)
  {
    act == ClockSm(h) && Due(w.env.sm[h]) && w.env.sm[h].enabled && w.env.sm[h].delay == 0
  }

  /** The presented instruction is `irq ... wait` on flag `f` of block `b`. */
  predicate IrqWaitOn(w: World, h: nat, b: nat, f: nat)
    requires InWorld(w, h)
  {
    var op := Decode(Presented(w, h));
    op.Irq? && !op.clear && op.wait && IrqTarget(w.env, h, op.field) == (Some(b), f)
  }

  /** The presented instruction is `wait 1 irq` on flag `f` of block `b`. */
  predicate WaitOn(w: World, h: nat, b: nat, f: nat)
    requires InWorld(w, h)
  {
    var op := Decode(Presented(w, h));
    op.Wait? && op.polarity == 1 && op.source == 2 && IrqTarget(w.env, h, op.index) == (Some(b), f)
  }

  predicate Raised(w: World, b: nat, f: nat)
    requires w.Valid() && b < |w.env.irq|
  {
    f in w.env.irq[b]
  }

  /** A parked `irq wait`: presented before, flag already raised by it. */
  predicate Parked(w: World, h: nat, b: nat, f: nat)
    requires InWorld(w, h)
  {
    w.env.sm[h].stalled && IrqWaitOn(w, h, b, f)
  }

  /** A stalled state machine is not counting a delay down. */
  ghost predicate StallsAreLive(w: World) {
    w.Valid() && forall h :: 0 <= h < |w.env.sm| && w.env.sm[h].stalled ==> w.env.sm[h].delay == 0
  }

  // ---- one presentation ------------------------------------------------------------

  lemma SideKeepsIrq(e: Env, g: nat, ds: DelaySide)
    requires Has(e, g)
    ensures ApplySide(e, g, ds).irq == e.irq
  {
    hide ResolvePads, SpanOnes, Span;
  }

  /** The state machine as it presents: divider stepped, OSR topped up. */
  function Poised(sm: Sm): (r: Sm)
    ensures LocalTo(Ticked(sm), r)
  {
    Autopull(Ticked(sm))
  }

  lemma PresentEffect(w: World, h: nat, insn: Insn, fromExec: bool)
    requires InWorld(w, h)
    ensures var r, v := ExecOp(w.env, h, Decode(insn)), PresentInsn(w, h, insn, fromExec);
            && v.env.irq == r.env.irq && v.env.sm[h].stalled == r.stalled
            && (r.stalled ==> v.flow == w.flow && SameSlot(r.env.sm[h], v.env.sm[h]) && v.env.sm[h].delay == w.env.sm[h].delay)
  {
    hide ExecOp, ApplySide, Decode, DelaySideOf;
    var r := ExecOp(w.env, h, Decode(insn));
    SideKeepsIrq(r.env, h, DelaySideOf(w.env.sm[h].cfg, insn));
  }

  /** A presented cycle in terms of its operation. */
  lemma PresentedCycle(w: World, act: Act, h: nat)
    requires InWorld(w, h) && Presents(w, act, h)
    ensures var e := PutSm(w.env, h, Poised(w.env.sm[h]));
            var r, v := ExecOp(e, h, Decode(Presented(w, h))), Do(w, act);
            && v.env.irq == r.env.irq && v.env.sm[h].stalled == r.stalled
            && (r.stalled ==> v.flow == w.flow && SameSlot(r.env.sm[h], v.env.sm[h]) && v.env.sm[h].delay == 0)
  {
    hide ExecOp, Decode, PresentInsn, SmCycle, Poised;
    var w2 := WithSm(w, h, Poised(w.env.sm[h]));
    PresentEffect(w2, h, Presented(w, h), w.env.sm[h].execPending);
    PoisedCycle(w, h);
  }

  lemma PoisedCycle(w: World, h: nat)
    requires InWorld(w, h) && w.env.sm[h].delay == 0
    ensures SmCycle(WithSm(w, h, Ticked(w.env.sm[h])), h)
         == PresentInsn(WithSm(w, h, Poised(w.env.sm[h])), h, Presented(w, h), w.env.sm[h].execPending)
  {
    hide PresentInsn, Autopull;
    var w1 := WithSm(w, h, Ticked(w.env.sm[h]));
    assert WithSm(w1, h, Poised(w.env.sm[h])) == WithSm(w, h, Poised(w.env.sm[h]));
  }

  /** What `irq wait` does, given what it names. */
  lemma ExecIrqWait(e: Env, h: nat, op: Op, b: nat, f: nat)
    requires Has(e, h) && Encodable(op) && op.Irq? && !op.clear && op.wait && b < |e.irq|
    requires IrqTarget(e, h, op.field) == (Some(b), f)
    ensures var r := ExecOp(e, h, op);
            && SameSlot(e.sm[h], r.env.sm[h])
            && r.env.irq == (if e.sm[h].stalled then e.irq else e.irq[b := e.irq[b] + {f}])
            && r.stalled == (f in r.env.irq[b])
  {
    hide IrqTarget;
  }

  /** First presentation of `irq wait`: the flag goes up and the state machine
      parks, whatever the flag was. */
  lemma FirstPresentationRaises(w: World, act: Act, h: nat, b: nat, f: nat)
    requires InWorld(w, h) && b < |w.env.irq| && Presents(w, act, h) && IrqWaitOn(w, h, b, f) && !w.env.sm[h].stalled
    ensures var v := Do(w, act);
            Raised(v, b, f) && Parked(v, h, b, f) && v.flow == w.flow && v.env.sm[h].delay == 0
  {
    hide Do, Decode, IrqTarget, Poised, ExecOp;
    PresentedCycle(w, act, h);
    DoKeepsCode(w, act, h / 4);
    TargetIsTopology(w.env, Do(w, act).env, h);
    var e := PutSm(w.env, h, Poised(w.env.sm[h]));
    TargetIsTopology(w.env, e, h);
    ExecIrqWait(e, h, Decode(Presented(w, h)), b, f);
  }

  /** Later presentations only poll: the flag is left alone, and the instruction
      commits exactly when it sees the flag clear. */
  lemma RetryPolls(w: World, act: Act, h: nat, b: nat, f: nat)
    requires InWorld(w, h) && b < |w.env.irq| && Presents(w, act, h) && Parked(w, h, b, f)
    ensures var v := Do(w, act);
            && v.env.irq == w.env.irq
            && (v.env.sm[h].stalled <==> Raised(w, b, f))
            && (Raised(w, b, f) ==> Parked(v, h, b, f) && v.flow == w.flow && v.env.sm[h].delay == 0)
  {
    hide Do, Decode, IrqTarget, Poised, ExecOp;
    PresentedCycle(w, act, h);
    DoKeepsCode(w, act, h / 4);
    TargetIsTopology(w.env, Do(w, act).env, h);
    var e := PutSm(w.env, h, Poised(w.env.sm[h]));
    TargetIsTopology(w.env, e, h);
    ExecIrqWait(e, h, Decode(Presented(w, h)), b, f);
  }

  lemma TargetIsTopology(e: Env, r: Env, h: nat)
    requires Has(e, h) && Has(r, h) && r.topo == e.topo
    ensures forall field :: IrqTarget(r, h, field) == IrqTarget(e, h, field)
  {
  }

  /** A `wait 1 irq` commits exactly when it finds the flag raised, and takes it
      down. */
  lemma WaitConsumes(w: World, act: Act, h: nat, b: nat, f: nat)
    requires InWorld(w, h) && b < |w.env.irq| && Presents(w, act, h) && WaitOn(w, h, b, f)
    ensures !Do(w, act).env.sm[h].stalled <==> Raised(w, b, f)
    ensures Raised(w, b, f) ==> !Raised(Do(w, act), b, f)
    ensures !Raised(w, b, f) ==> Do(w, act).env.irq == w.env.irq
  {
    hide Do, Decode, IrqTarget, Poised;
    PresentedCycle(w, act, h);
    TargetIsTopology(w.env, PutSm(w.env, h, Poised(w.env.sm[h])), h);
  }

  // ---- runs ----------------------------------------------------------------------

  lemma StalledKeepsSlot(e: Env, h: nat, op: Op)
    requires Has(e, h) && Encodable(op) && ExecOp(e, h, op).stalled
    ensures SameSlot(e.sm[h], ExecOp(e, h, op).env.sm[h])
  {
    if op.Out? { OutStall(e, h, op.dest, op.count); }
  }

  lemma OutStall(e: Env, h: nat, dest: nat, count: nat)
    requires Has(e, h) && 1 <= count <= 32 && ExecOut(e, h, dest, count).stalled
    ensures SameSlot(e.sm[h], ExecOut(e, h, dest, count).env.sm[h])
  {
    hide ShiftOutRest, ShiftOutValue;
  }

  /** A stalled cycle presents the same word again. */
  lemma StallRepeats(w: World, act: Act, h: nat)
    requires InWorld(w, h) && Presents(w, act, h) && Do(w, act).env.sm[h].stalled
    ensures Presented(Do(w, act), h) == Presented(w, h) && Do(w, act).env.sm[h].delay == 0
  {
    hide Do, Decode, Poised, ExecOp;
    PresentedCycle(w, act, h);
    DoKeepsCode(w, act, h / 4);
    StalledKeepsSlot(PutSm(w.env, h, Poised(w.env.sm[h])), h, Decode(Presented(w, h)));
  }

  /** A cycle that only counts a delay down. */
  lemma DelayCycle(w: World, h: nat)
    requires InWorld(w, h) && Due(w.env.sm[h]) && w.env.sm[h].enabled && w.env.sm[h].delay > 0
    ensures var s, r := w.env.sm[h], Clock(w, h).env.sm[h];
            r.stalled == s.stalled && r.delay == s.delay - 1 && Clock(w, h).env.irq == w.env.irq
  {
    hide Autopull, PresentInsn;
    var w1 := WithSm(w, h, Ticked(w.env.sm[h]));
    assert Poised(w.env.sm[h]).delay == w.env.sm[h].delay;
  }

  /** Acts that do not present on `h` leave what `h` will present alone. */
  lemma OtherActKeepsPresented(w: World, act: Act, h: nat)
    requires StallsAreLive(w) && InWorld(w, h) && Applies(act, w.env) && !Presents(w, act, h)
    ensures var v := Do(w, act);
            && v.env.sm[h].stalled == w.env.sm[h].stalled
            && (v.env.sm[h].stalled ==> v.env.sm[h].delay == 0 && Presented(v, h) == Presented(w, h))
  {
    hide Clock, DoEnv;
    DoKeepsCode(w, act, h / 4);
    if !act.ClockSm? {
      EnvActFrame(w.env, act, h);
    } else if act.g != h {
      OtherFlow(w, act.g, h);
    } else if w.env.sm[h].delay > 0 && Due(w.env.sm[h]) && w.env.sm[h].enabled {
      DelayCycle(w, h);
    } else {
      IdleClock(w, h);
    }
  }

  lemma StallsStayLive(w: World, act: Act)
    requires StallsAreLive(w) && Applies(act, w.env)
    ensures StallsAreLive(Do(w, act))
  {
    hide Do, Presents;
    forall h | 0 <= h < |w.env.sm| && Do(w, act).env.sm[h].stalled
      ensures Do(w, act).env.sm[h].delay == 0
    {
      if Presents(w, act, h) { StallRepeats(w, act, h); } else { OtherActKeepsPresented(w, act, h); }
    }
  }

  function Count(p: bool): nat {
    if p then 1 else 0
  }

  /** `h` presents `irq wait` for the first time: it raises the flag. */
  predicate RaiseEvent(w: World, act: Act, h: nat, b: nat, f: nat)
    requires InWorld(w, h)
  {
    Presents(w, act, h) && IrqWaitOn(w, h, b, f) && !w.env.sm[h].stalled
  }

  /** `h` re-presents a parked `irq wait` and finds the flag clear: it commits. */
  predicate CommitEvent(w: World, act: Act, h: nat, b: nat, f: nat)
    requires InWorld(w, h) && b < |w.env.irq|
  {
    Presents(w, act, h) && Parked(w, h, b, f) && !Raised(w, b, f)
  }

  lemma ParkedBalance(w: World, act: Act, h: nat, b: nat, f: nat)
    requires StallsAreLive(w) && InWorld(w, h) && b < |w.env.irq| && Applies(act, w.env)
    ensures Count(Parked(w, h, b, f)) + Count(RaiseEvent(w, act, h, b, f)) ==
            Count(Parked(Do(w, act), h, b, f)) + Count(CommitEvent(w, act, h, b, f))
  {
    hide Do, Decode, IrqTarget, Presented;
    var v := Do(w, act);
    TargetIsTopology(w.env, v.env, h);
    if Presents(w, act, h) {
      if IrqWaitOn(w, h, b, f) {
        if w.env.sm[h].stalled { RetryPolls(w, act, h, b, f); } else { FirstPresentationRaises(w, act, h, b, f); }
      } else if v.env.sm[h].stalled {
        StallRepeats(w, act, h);
      }
    } else {
      OtherActKeepsPresented(w, act, h);
    }
  }

  function Raises(w: World, acts: seq<Act>, h: nat, b: nat, f: nat): nat
    requires InWorld(w, h) && Runnable(acts, w.env)
    decreases acts
  {
    if acts == [] then 0
    else
      RunnableTail(acts, w.env, Do(w, acts[0]).env);
      Count(RaiseEvent(w, acts[0], h, b, f)) + Raises(Do(w, acts[0]), acts[1..], h, b, f)
  }

  function Commits(w: World, acts: seq<Act>, h: nat, b: nat, f: nat): nat
    requires InWorld(w, h) && b < |w.env.irq| && Runnable(acts, w.env)
    decreases acts
  {
    if acts == [] then 0
    else
      RunnableTail(acts, w.env, Do(w, acts[0]).env);
      Count(CommitEvent(w, acts[0], h, b, f)) + Commits(Do(w, acts[0]), acts[1..], h, b, f)
  }

  /** Over every run, `irq wait` on one flag commits once per raise, the last
      raise possibly still parked: it never raises on a retry and never commits
      without having stalled. */
  lemma {:induction false} OneRaisePerCommit(w: World, acts: seq<Act>, h: nat, b: nat, f: nat)
    requires StallsAreLive(w) && InWorld(w, h) && b < |w.env.irq| && Runnable(acts, w.env)
    ensures Count(Parked(w, h, b, f)) + Raises(w, acts, h, b, f) ==
            Count(Parked(Run(w, acts), h, b, f)) + Commits(w, acts, h, b, f)
    decreases acts
  {
    hide Do, RaiseEvent, CommitEvent, Parked, StallsAreLive;
    if acts != [] {
      var v := Do(w, acts[0]);
      RunnableTail(acts, w.env, v.env);
      ParkedBalance(w, acts[0], h, b, f);
      StallsStayLive(w, acts[0]);
      OneRaisePerCommit(v, acts[1..], h, b, f);
    }
  }

  /** Some state machine's `wait 1 irq` on the flag commits in this act. */
  predicate ReleaseEvent(w: World, act: Act, b: nat, f: nat)
    requires w.Valid() && b < |w.env.irq| && Applies(act, w.env)
  {
    act.ClockSm? && Presents(w, act, act.g) && WaitOn(w, act.g, b, f) && Raised(w, b, f)
  }

  predicate RiseEvent(w: World, act: Act, b: nat, f: nat)
    requires w.Valid() && b < |w.env.irq| && Applies(act, w.env)
  {
    !Raised(w, b, f) && Raised(Do(w, act), b, f)
  }

  function Releases(w: World, acts: seq<Act>, b: nat, f: nat): nat
    requires w.Valid() && b < |w.env.irq| && Runnable(acts, w.env)
    decreases acts
  {
    if acts == [] then 0
    else
      RunnableTail(acts, w.env, Do(w, acts[0]).env);
      Count(ReleaseEvent(w, acts[0], b, f)) + Releases(Do(w, acts[0]), acts[1..], b, f)
  }

  function Rises(w: World, acts: seq<Act>, b: nat, f: nat): nat
    requires w.Valid() && b < |w.env.irq| && Runnable(acts, w.env)
    decreases acts
  {
    if acts == [] then 0
    else
      RunnableTail(acts, w.env, Do(w, acts[0]).env);
      Count(RiseEvent(w, acts[0], b, f)) + Rises(Do(w, acts[0]), acts[1..], b, f)
  }

  /** Over every run, the waits a flag releases, in any state machine of any
      linked block, never outnumber the times it went from clear to raised: one
      raise releases at most one waiter. */
  lemma {:induction false} OneReleasePerRise(w: World, acts: seq<Act>, b: nat, f: nat)
    requires w.Valid() && b < |w.env.irq| && Runnable(acts, w.env)
    ensures Releases(w, acts, b, f) + Count(Raised(Run(w, acts), b, f)) <=
            Rises(w, acts, b, f) + Count(Raised(w, b, f))
    decreases acts
  {
    hide Do, WaitOn, Presents;
    if acts != [] {
      var act, v := acts[0], Do(w, acts[0]);
      RunnableTail(acts, w.env, v.env);
      if ReleaseEvent(w, act, b, f) { WaitConsumes(w, act, act.g, b, f); }
      OneReleasePerRise(v, acts[1..], b, f);
    }
  }
}
