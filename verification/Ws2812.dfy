/** The WS2812 driver program: every bit is a ten-cycle frame whose high time is
    seven cycles for a one and two for a zero, and stalls only add low time. */
module Ws2812 {
  import opened Bits
  import opened Isa
  import opened Pads
  import opened Machine
  import opened Runs
  import opened Window
  import opened Shift
  import opened PadResolve
  import TickPads

  // side-set of one mandatory bit: the 5-bit field is side * 16 + delay
  const OUT_X: Insn := Assemble(Out(1, 1), 2)      // out x, 1        side 0 [2]
  const JMP_NOTX: nat := 1
  const WS_WIDTH: nat := 4

  /** The program with its jump targets for load offset `o`. */
  function WsWord(o: nat, slot: nat): Insn
    requires o + 4 <= 32 && slot < WS_WIDTH
  {
    match slot
    case 0 => OUT_X
    case 1 => Assemble(Jmp(JMP_NOTX, o + 3), 17)   // jmp !x do_zero  side 1 [1]
    case 2 => Assemble(Jmp(0, o), 20)              // jmp bitloop     side 1 [4]
    case _ => Assemble(Mov(2, 0, 2), 4)            // nop             side 0 [4]
  }

  ghost predicate WsLoaded(w: World, g: nat, o: nat) {
    && InWorld(w, g) && o + 4 <= 32
    && w.flow[g].bottom == o && w.flow[g].top == o + 3
    && (forall slot :: 0 <= slot < WS_WIDTH ==> w.code[g / 4].insn[o + slot] == WsWord(o, slot))
    && var cfg := w.env.sm[g].cfg;
       cfg.sideBits == 1 && !cfg.sideOpt && !cfg.sidePindirs && cfg.autopull
  }

  /** The level the state machine holds on its side-set pin. */
  predicate High(w: World, g: nat)
    requires InWorld(w, g)
  {
    SpanPin(GpioBase(w.env, g), w.env.sm[g].cfg.sideBase, 0) in w.env.sm[g].outVal
  }

  /** Where in its frame the state machine is: position 0 waits for a bit,
      positions 1..9 are cycles into the frame of bit `b`. */
  datatype Frame = Frame(pos: nat, b: bool)

  function FramePc(o: nat, f: Frame): nat {
    if f.pos == 0 || f.pos >= 6 then o
    else if f.pos <= 3 then o + 1
    else if f.b then o + 2 else o + 3
  }

  function FrameDelay(f: Frame): nat {
    match f.pos
    case 1 => 2
    case 2 => 1
    case 4 => 1
    case 6 => 4
    case 7 => 3
    case 8 => 2
    case 9 => 1
    case _ => 0
  }

  /** The level held on arriving at a position. */
  predicate FrameHigh(f: Frame) {
    f.pos == 4 || f.pos == 5 || ((f.pos == 0 || f.pos >= 6) && f.b)
  }

  /** One cycle of the frame clock; `bits` is what the cycle took from the OSR. */
  function NextFrame(f: Frame, bits: seq<bool>): Frame {
    if f.pos == 0 then (if bits == [] then Frame(0, false) else Frame(1, bits[0]))
    else if f.pos == 9 then Frame(0, f.b)
    else Frame(f.pos + 1, f.b)
  }

  /** The machine is at frame position `f`. */
  ghost predicate AtFrame(w: World, g: nat, o: nat, f: Frame) {
    && WsLoaded(w, g, o) && f.pos < 10
    && !w.env.sm[g].execPending
    && w.flow[g].pc == FramePc(o, f) && w.env.sm[g].delay == FrameDelay(f)
    && (1 <= f.pos <= 3 ==> (w.env.sm[g].x != ZERO <==> f.b))
    && (f.pos > 0 ==> (High(w, g) <==> FrameHigh(f)))
  }

  // ---- the instructions ----------------------------------------------------------

  lemma WsDelaySide(cfg: SmConfig, op: Op, side: nat, delay: nat)
    requires cfg.sideBits == 1 && !cfg.sideOpt && Encodable(op) && side < 2 && delay < 16
    ensures DelaySideOf(cfg, Assemble(op, side * 16 + delay)) == DelaySide(delay, side, true, 1)
    ensures Decode(Assemble(op, side * 16 + delay)) == op
  {
    hide Decode, DelayField, Assemble, Encodable;
    EncodeDecode(op, side * 16 + delay);
    assert Pow2(4) == 16 && Pow2(1) == 2;
    Pair(delay, side, 16);
    SmallMod(side, 2);
  }

  lemma OneOn(gb: nat, base: nat, side: nat, was: Pins)
    requires side < 2
    ensures SpanPin(gb, base, 0) in (was - Span(gb, base, 1)) + SpanOnes(gb, base, 1, FromNat(side, 32)) <==> side == 1
  {
    hide SpanPin;
    var v := FromNat(side, 32);
    assert v[0] == (side == 1);
    var pin := SpanPin(gb, base, 0);
    assert pin in Span(gb, base, 1);
    if side == 1 {
      assert pin in SpanOnes(gb, base, 1, v);
    } else {
      assert SpanOnes(gb, base, 1, v) == {};
    }
  }

  lemma DrivenLevels(e: Env, g: nat, base: nat, v: Word)
    requires Has(e, g)
    ensures DrivePins(e, g, base, 1, v).sm[g].outVal
         == (e.sm[g].outVal - Span(GpioBase(e, g), base, 1)) + SpanOnes(GpioBase(e, g), base, 1, v)
  {
    hide Span, SpanOnes, GpioBase, ResolvePads;
  }

  /** Driving one side-set pin sets exactly that pin's level. */
  lemma SidePin(e: Env, g: nat, side: nat)
    requires Has(e, g) && side < 2
    ensures var r := DrivePins(e, g, e.sm[g].cfg.sideBase, 1, FromNat(side, 32));
            SpanPin(GpioBase(e, g), e.sm[g].cfg.sideBase, 0) in r.sm[g].outVal <==> side == 1
  {
    hide DrivePins, Span, SpanOnes, SpanPin, GpioBase, FromNat;
    DrivenLevels(e, g, e.sm[g].cfg.sideBase, FromNat(side, 32));
    OneOn(GpioBase(e, g), e.sm[g].cfg.sideBase, side, e.sm[g].outVal);
  }

  /** Presenting a word with side value `side`: the operation, then the pin. */
  lemma WsPresent(w: World, g: nat, op: Op, side: nat, delay: nat)
    requires InWorld(w, g) && Encodable(op) && side < 2 && delay < 16
    requires w.env.sm[g].cfg.sideBits == 1 && !w.env.sm[g].cfg.sideOpt && !w.env.sm[g].cfg.sidePindirs
    ensures var r := PresentInsn(w, g, Assemble(op, side * 16 + delay), false);
            var s := ExecOp(w.env, g, op);
            && (High(r, g) <==> side == 1)
            && r.flow == w.flow[g := RetireFlow(w.flow[g], s, false)]
            && r.env.sm[g].cfg == w.env.sm[g].cfg && SameSlot(s.env.sm[g], r.env.sm[g])
            && r.env.sm[g].x == s.env.sm[g].x
            && r.env.sm[g].delay == (if s.stalled then w.env.sm[g].delay
                                     else if s.env.sm[g].execPending then 0 else delay)
  {
    hide ExecOp, ResolvePads, Decode, Assemble, SpanPin, Span, SpanOnes, Encodable;
    WsDelaySide(w.env.sm[g].cfg, op, side, delay);
    var s := ExecOp(w.env, g, op);
    SidePin(s.env, g, side);
  }

  /** `out x, 1`: the delivered bit is what X tests for; an empty OSR stalls. */
  lemma OutBitToX(e: Env, g: nat)
    requires Has(e, g) && e.sm[g].cfg.autopull
    ensures var sm, r := e.sm[g], ExecOp(e, g, Out(1, 1));
            && r.jump.None? && SameSlot(sm, r.env.sm[g])
            && (r.stalled <==> OutBits(sm, Out(1, 1)) == [])
            && (!r.stalled ==> OutBits(sm, Out(1, 1)) == [r.env.sm[g].x != ZERO])
  {
    var sm := e.sm[g];
    var v := ShiftOutValue(sm.cfg.outDir, sm.osr, 1);
    assert v[..1] == [v[0]];
    assert forall i :: 1 <= i < 32 ==> !v[i];
    if !v[0] { assert v == ZERO; } else { assert ZERO[0] == false; }
    assert InOrder(sm.cfg.outDir, v[..1]) == [v[0]];
  }

  lemma FetchSlot(w: World, g: nat, o: nat, slot: nat)
    requires WsLoaded(w, g, o) && slot < WS_WIDTH && w.flow[g].pc == o + slot && !w.env.sm[g].execPending
    ensures Presented(w, g) == WsWord(o, slot)
  {
    hide WsWord;
    SmallMod(o + slot, 32);
    assert w.code[g / 4].insn[o + slot] == WsWord(o, slot);
  }

  lemma DelayStep(w: World, g: nat, o: nat, f: Frame)
    requires AtFrame(w, g, o, f) && FrameDelay(f) > 0
    ensures AtFrame(SmCycle(w, g), g, o, NextFrame(f, CycleBits(w, g)))
    ensures High(SmCycle(w, g), g) <==> FrameHigh(NextFrame(f, CycleBits(w, g)))
  {
    hide SmCycle, CycleBits, Autopull, WsWord, SpanPin;
    CycleUnfold(w, g);
  }

  /** What survives every cycle: the loaded program and its configuration. */
  lemma LoadedAfterPresent(w: World, v: World, g: nat, o: nat)
    requires WsLoaded(w, g, o) && InWorld(v, g) && v.env.sm[g].cfg == w.env.sm[g].cfg
    requires v.flow[g].bottom == w.flow[g].bottom && v.flow[g].top == w.flow[g].top
    requires v.code[g / 4].insn == w.code[g / 4].insn
    ensures WsLoaded(v, g, o)
  {
    hide WsWord;
  }

  /** Slot 0 from the waiting position: a bit starts a frame, a stall stays low. */
  lemma SlotZero(w: World, g: nat, o: nat)
    requires WsLoaded(w, g, o) && !w.env.sm[g].execPending && w.flow[g].pc == o && w.env.sm[g].delay == 0
    ensures var r := PresentInsn(w, g, WsWord(o, 0), false);
            var f := NextFrame(Frame(0, false), OutBits(w.env.sm[g], Out(1, 1)));
            WsLoaded(r, g, o) ==> AtFrame(r, g, o, f) && (High(r, g) <==> FrameHigh(f))
  {
    hide ExecBy, Repads, PresentInsn, ExecOp, OutBits, WsLoaded, High, Assemble;
    WsFacts(w, g, o);
    WsPresent(w, g, Out(1, 1), 0, 2);
    OutBitToX(w.env, g);
    SmallMod(o + 1, 32);
  }

  /** Slot 1: the pin goes high and X picks the branch. */
  lemma SlotOne(w: World, g: nat, o: nat, b: bool)
    requires WsLoaded(w, g, o) && !w.env.sm[g].execPending && w.flow[g].pc == o + 1 && w.env.sm[g].delay == 0
    requires w.env.sm[g].x != ZERO <==> b
    ensures var r := PresentInsn(w, g, WsWord(o, 1), false);
            WsLoaded(r, g, o) ==> AtFrame(r, g, o, Frame(4, b)) && High(r, g)
  {
    hide ExecBy, Repads, PresentInsn, WsLoaded, High, Assemble;
    WsFacts(w, g, o);
    WsPresent(w, g, Jmp(JMP_NOTX, o + 3), 1, 1);
    SmallMod(o + 2, 32);
  }

  /** Slots 2 and 3: hold the bit's level for the rest of the frame. */
  lemma SlotLast(w: World, g: nat, o: nat, b: bool)
    requires WsLoaded(w, g, o) && !w.env.sm[g].execPending && w.env.sm[g].delay == 0
    requires w.flow[g].pc == if b then o + 2 else o + 3
    ensures var r := PresentInsn(w, g, WsWord(o, if b then 2 else 3), false);
            WsLoaded(r, g, o) ==> AtFrame(r, g, o, Frame(6, b)) && (High(r, g) <==> b)
  {
    hide PresentInsn, WsLoaded, High, Assemble;
    WsFacts(w, g, o);
    if b {
      WsPresent(w, g, Jmp(0, o), 1, 4);
    } else {
      WsPresent(w, g, Mov(2, 0, 2), 0, 4);
    }
  }

  lemma WsFacts(w: World, g: nat, o: nat)
    requires WsLoaded(w, g, o)
    ensures InWorld(w, g) && o + 4 <= 32 && w.flow[g].bottom == o && w.flow[g].top == o + 3
    ensures var cfg := w.env.sm[g].cfg; cfg.sideBits == 1 && !cfg.sideOpt && !cfg.sidePindirs && cfg.autopull
  {
  }

  lemma StillLoaded(w: World, g: nat, o: nat)
    requires WsLoaded(w, g, o)
    ensures WsLoaded(SmCycle(w, g), g, o)
  {
    hide ExecOne, Decode, WsWord;
    CycleKeepsCode(w, g);
    LoadedAfterPresent(w, SmCycle(w, g), g, o);
  }

  lemma WsDecodes(o: nat, slot: nat)
    requires o + 4 <= 32 && slot < WS_WIDTH
    ensures slot == 0 ==> Decode(WsWord(o, slot)) == Out(1, 1)
    ensures slot > 0 ==> !Decode(WsWord(o, slot)).Out?
  {
    hide Decode, Assemble;
    match slot
    case 0 => EncodeDecode(Out(1, 1), 2);
    case 1 => EncodeDecode(Jmp(JMP_NOTX, o + 3), 17);
    case 2 => EncodeDecode(Jmp(0, o), 20);
    case 3 => EncodeDecode(Mov(2, 0, 2), 4);
  }

  lemma InsnStep(w: World, g: nat, o: nat, f: Frame)
    requires AtFrame(w, g, o, f) && FrameDelay(f) == 0
    ensures AtFrame(SmCycle(w, g), g, o, NextFrame(f, CycleBits(w, g)))
    ensures High(SmCycle(w, g), g) <==> FrameHigh(NextFrame(f, CycleBits(w, g)))
  {
    hide SmCycle, CycleBits, Autopull, WsWord, PresentInsn, Decode, High;
    CycleUnfold(w, g);
    StillLoaded(w, g, o);
    var sm := Autopull(w.env.sm[g]);
    var w1 := WithSm(w, g, sm);
    LoadedAfterPresent(w, w1, g, o);
    var slot := w.flow[g].pc - o;
    FetchSlot(w, g, o, slot);
    WsDecodes(o, slot);
    if f.pos == 0 {
      SlotZero(w1, g, o);
    } else if f.pos == 3 {
      SlotOne(w1, g, o, f.b);
    } else {
      SlotLast(w1, g, o, f.b);
    }
  }

  /** Every cycle advances the frame by one position, except a stall while
      waiting for a bit, which holds the pin low. */
  lemma FrameStep(w: World, g: nat, o: nat, f: Frame)
    requires AtFrame(w, g, o, f)
    ensures AtFrame(SmCycle(w, g), g, o, NextFrame(f, CycleBits(w, g)))
    ensures High(SmCycle(w, g), g) <==> FrameHigh(NextFrame(f, CycleBits(w, g)))
  {
    hide SmCycle, CycleBits, AtFrame, NextFrame, FrameHigh, High;
    if FrameDelay(f) > 0 { DelayStep(w, g, o, f); } else { InsnStep(w, g, o, f); }
  }

  // ---- runs --------------------------------------------------------------------

  /** The act runs a cycle of state machine `g`. */
  predicate Fires(w: World, act: Act, g: nat)
    requires InWorld(w, g)
  {
    act.ClockSm? && act.g == g && Due(w.env.sm[g]) && w.env.sm[g].enabled
  }

  /** Nothing a frame position depends on changed. */
  ghost predicate SameFrameState(w: World, v: World, g: nat) {
    && InWorld(w, g) && InWorld(v, g) && v.env.topo == w.env.topo
    && v.flow[g] == w.flow[g] && v.code[g / 4].insn == w.code[g / 4].insn
    && var s, s' := w.env.sm[g], v.env.sm[g];
       s'.cfg == s.cfg && SameSlot(s, s') && s'.delay == s.delay && s'.x == s.x && s'.outVal == s.outVal
  }

  lemma SameFrame(w: World, v: World, g: nat, o: nat, f: Frame)
    requires SameFrameState(w, v, g) && AtFrame(w, g, o, f)
    ensures AtFrame(v, g, o, f) && (High(v, g) <==> High(w, g))
  {
    hide WsWord, FramePc, FrameDelay, FrameHigh, SpanPin;
    LoadedAfterPresent(w, v, g, o);
  }

  lemma OtherActKeepsFrame(w: World, act: Act, g: nat)
    requires InWorld(w, g) && Applies(act, w.env) && !Fires(w, act, g)
    ensures SameFrameState(w, Do(w, act), g)
  {
    hide Clock, DoEnv;
    DoKeepsCode(w, act, g / 4);
    if !act.ClockSm? {
      EnvActFrame(w.env, act, g);
    } else if act.g == g {
      IdleClock(w, g);
    } else {
      OtherFlow(w, act.g, g);
    }
  }

  lemma FiringActStepsFrame(w: World, act: Act, g: nat, o: nat, f: Frame)
    requires AtFrame(w, g, o, f) && Applies(act, w.env) && Fires(w, act, g)
    ensures var f' := NextFrame(f, Delivered(w, g));
            AtFrame(Do(w, act), g, o, f') && (High(Do(w, act), g) <==> FrameHigh(f'))
  {
    hide SmCycle, CycleBits, AtFrame, NextFrame, FrameHigh, High;
    assert InWorld(w, g) by { FrameInWorld(w, g, o, f); }
    var w1 := WithSm(w, g, Ticked(w.env.sm[g]));
    SameFrame(w, w1, g, o, f);
    FrameStep(w1, g, o, f);
    var w2 := SmCycle(w1, g);
    SameFrame(w2, Do(w, act), g, o, NextFrame(f, Delivered(w, g)));
  }

  lemma FrameInWorld(w: World, g: nat, o: nat, f: Frame)
    requires AtFrame(w, g, o, f)
    ensures InWorld(w, g)
  {
  }

  /** The level after each cycle state machine `g` runs. */
  function LevelLog(w: World, acts: seq<Act>, g: nat): seq<bool>
    requires InWorld(w, g) && Runnable(acts, w.env)
    decreases acts
  {
    if acts == [] then []
    else
      RunnableTail(acts, w.env, Do(w, acts[0]).env);
      (if Fires(w, acts[0], g) then [High(Do(w, acts[0]), g)] else [])
      + LevelLog(Do(w, acts[0]), acts[1..], g)
  }

  /** What each of those cycles took from the OSR: one bit, or nothing. */
  function BitLog(w: World, acts: seq<Act>, g: nat): seq<seq<bool>>
    requires InWorld(w, g) && Runnable(acts, w.env)
    decreases acts
  {
    if acts == [] then []
    else
      RunnableTail(acts, w.env, Do(w, acts[0]).env);
      (if Fires(w, acts[0], g) then [Delivered(w, g)] else []) + BitLog(Do(w, acts[0]), acts[1..], g)
  }

  /** The waveform the frame clock prescribes. */
  function Waveform(f: Frame, log: seq<seq<bool>>): seq<bool>
    decreases log
  {
    if log == [] then [] else [FrameHigh(NextFrame(f, log[0]))] + Waveform(NextFrame(f, log[0]), log[1..])
  }

  /** Over every run, the side-set pin follows the frame clock, cycle by cycle. */
  lemma {:induction false} WaveformFollowsBits(w: World, acts: seq<Act>, g: nat, o: nat, f: Frame)
    requires AtFrame(w, g, o, f) && Runnable(acts, w.env)
    ensures LevelLog(w, acts, g) == Waveform(f, BitLog(w, acts, g))
    decreases acts
  {
    hide Do, AtFrame, NextFrame, FrameHigh, Fires, Delivered, High;
    FrameInWorld(w, g, o, f);
    if acts != [] {
      var act := acts[0];
      var v := Do(w, act);
      RunnableTail(acts, w.env, v.env);
      if Fires(w, act, g) {
        FiringActStepsFrame(w, act, g, o, f);
        WaveformFollowsBits(v, acts[1..], g, o, NextFrame(f, Delivered(w, g)));
        var log := BitLog(w, acts, g);
        assert log[0] == Delivered(w, g) && log[1..] == BitLog(v, acts[1..], g);
      } else {
        OtherActKeepsFrame(w, act, g);
        SameFrame(w, v, g, o, f);
        WaveformFollowsBits(v, acts[1..], g, o, f);
        assert LevelLog(w, acts, g) == LevelLog(v, acts[1..], g);
        assert BitLog(w, acts, g) == BitLog(v, acts[1..], g);
      }
    }
  }

  // ---- the picture of a run -----------------------------------------------------------

  /** Inside a frame nothing is taken from the OSR; between frames at most one bit. */
  lemma FrameBits(w: World, g: nat, o: nat, f: Frame)
    requires AtFrame(w, g, o, f)
    ensures InWorld(w, g) && |CycleBits(w, g)| <= 1 && (f.pos > 0 ==> CycleBits(w, g) == [])
  {
    hide CycleBits, Autopull, WsWord, Decode, SmCycle, PresentInsn, High;
    CycleUnfold(w, g);
    if FrameDelay(f) == 0 {
      var slot := w.flow[g].pc - o;
      FetchSlot(w, g, o, slot);
      WsDecodes(o, slot);
      OneBitOut(Autopull(w.env.sm[g]), Decode(Presented(w, g)));
    }
  }

  lemma OneBitOut(sm: Sm, op: Op)
    requires Encodable(op) && (op == Out(1, 1) || !op.Out?)
    ensures |OutBits(sm, op)| <= 1 && (!op.Out? ==> OutBits(sm, op) == [])
  {
  }

  /** The log takes at most a bit per cycle, and only at position 0. */
  predicate WellTimed(f: Frame, log: seq<seq<bool>>)
    decreases log
  {
    log == [] || (|log[0]| <= 1 && (f.pos > 0 ==> log[0] == []) && WellTimed(NextFrame(f, log[0]), log[1..]))
  }

  lemma DeliveredBits(w: World, act: Act, g: nat, o: nat, f: Frame)
    requires AtFrame(w, g, o, f) && InWorld(w, g) && Fires(w, act, g)
    ensures |Delivered(w, g)| <= 1 && (f.pos > 0 ==> Delivered(w, g) == [])
  {
    hide SmCycle, CycleBits, AtFrame, High;
    var w1 := WithSm(w, g, Ticked(w.env.sm[g]));
    SameFrame(w, w1, g, o, f);
    FrameBits(w1, g, o, f);
  }

  lemma {:induction false} RunIsWellTimed(w: World, acts: seq<Act>, g: nat, o: nat, f: Frame)
    requires AtFrame(w, g, o, f) && Runnable(acts, w.env)
    ensures InWorld(w, g) && WellTimed(f, BitLog(w, acts, g))
    decreases acts
  {
    hide Do, AtFrame, NextFrame, Fires, Delivered, High;
    FrameInWorld(w, g, o, f);
    if acts != [] {
      var act := acts[0];
      var v := Do(w, act);
      RunnableTail(acts, w.env, v.env);
      if Fires(w, act, g) {
        FiringActStepsFrame(w, act, g, o, f);
        DeliveredBits(w, act, g, o, f);
        RunIsWellTimed(v, acts[1..], g, o, NextFrame(f, Delivered(w, g)));
        var log := BitLog(w, acts, g);
        assert log[0] == Delivered(w, g) && log[1..] == BitLog(v, acts[1..], g);
      } else {
        OtherActKeepsFrame(w, act, g);
        SameFrame(w, v, g, o, f);
        RunIsWellTimed(v, acts[1..], g, o, f);
        assert BitLog(w, acts, g) == BitLog(v, acts[1..], g);
      }
    }
  }

  /** A bit's ten cycles: three low, two high, five at the bit's level, so the high
      run is seven cycles for a one and two for a zero. */
  function FrameOf(b: bool): (s: seq<bool>)
    ensures |s| == 10
  {
    [false, false, false, true, true, b, b, b, b, b]
  }

  /** Frames of the bits in turn, each after some low cycles; then more low cycles. */
  function Picture(bits: seq<bool>, stalls: seq<nat>): seq<bool>
    requires |stalls| == |bits| + 1
    decreases bits
  {
    if bits == [] then Zeros(stalls[0])
    else Zeros(stalls[0]) + FrameOf(bits[0]) + Picture(bits[1..], stalls[1..])
  }

  function Flatten(log: seq<seq<bool>>): seq<bool> {
    if log == [] then [] else log[0] + Flatten(log[1..])
  }

  /** What a frame still shows after `pos` cycles. */
  function Rest(f: Frame): (s: seq<bool>)
    requires f.pos <= 9
    ensures |s| == 10 - f.pos
  {
    FrameOf(f.b)[f.pos..]
  }

  lemma RestStep(f: Frame)
    requires 1 <= f.pos <= 9
    ensures var next := NextFrame(f, []);
            Rest(f) == [FrameHigh(next)] + (if f.pos == 9 then [] else Rest(next)) && next.b == f.b
  {
  }

  /** One cycle inside a frame. */
  lemma QuietStep(f: Frame, log: seq<seq<bool>>)
    requires 1 <= f.pos <= 9 && WellTimed(f, log) && log != []
    ensures var next := NextFrame(f, []);
            && WellTimed(next, log[1..]) && Flatten(log) == Flatten(log[1..])
            && Waveform(f, log) == [FrameHigh(next)] + Waveform(next, log[1..])
  {
    hide NextFrame, FrameHigh;
    assert log[0] == [];
    assert [] + Flatten(log[1..]) == Flatten(log[1..]);
  }

  /** A log that ends inside the frame. */
  lemma {:induction false} CutShort(f: Frame, log: seq<seq<bool>>)
    requires 1 <= f.pos <= 9 && WellTimed(f, log) && |log| < 10 - f.pos
    ensures Waveform(f, log) == Rest(f)[..|log|] && Flatten(log) == []
    decreases |log|
  {
    hide NextFrame, FrameHigh, Rest, WellTimed;
    if log != [] {
      RestStep(f);
      QuietStep(f, log);
      NextInside(f);
      CutShort(NextFrame(f, []), log[1..]);
    }
  }

  lemma NextInside(f: Frame)
    requires 1 <= f.pos <= 9
    ensures NextFrame(f, []) == if f.pos == 9 then Frame(0, f.b) else Frame(f.pos + 1, f.b)
  {
  }

  /** A log that completes the frame. */
  lemma {:induction false} RestOfFrame(f: Frame, log: seq<seq<bool>>)
    requires 1 <= f.pos <= 9 && WellTimed(f, log) && |log| >= 10 - f.pos
    ensures var after := log[10 - f.pos..];
            && Waveform(f, log) == Rest(f) + Waveform(Frame(0, f.b), after)
            && WellTimed(Frame(0, f.b), after) && Flatten(log) == Flatten(after)
    decreases 10 - f.pos
  {
    hide NextFrame, FrameHigh, Rest, WellTimed, Waveform, Flatten;
    RestStep(f);
    QuietStep(f, log);
    NextInside(f);
    if f.pos < 9 {
      var next := NextFrame(f, []);
      RestOfFrame(next, log[1..]);
      assert log[1..][10 - next.pos..] == log[10 - f.pos..];
      assert Rest(f) + Waveform(Frame(0, f.b), log[10 - f.pos..])
          == [FrameHigh(next)] + (Rest(next) + Waveform(Frame(0, f.b), log[10 - f.pos..]));
    } else {
      assert [FrameHigh(NextFrame(f, []))] + [] == [FrameHigh(NextFrame(f, []))];
    }
  }

  /** The frame clock on any well-timed log draws a picture of the bits taken, cut
      off inside its last frame at most. */
  ghost predicate Drawn(levels: seq<bool>, bits: seq<bool>, stalls: seq<nat>) {
    && |stalls| == |bits| + 1
    && levels <= Picture(bits, stalls) && |Picture(bits, stalls)| < |levels| + 10
  }

  lemma LongerStall(levels: seq<bool>, bits: seq<bool>, stalls: seq<nat>)
    requires Drawn(levels, bits, stalls)
    ensures Drawn([false] + levels, bits, stalls[0 := stalls[0] + 1])
  {
    var more := stalls[0 := stalls[0] + 1];
    assert Zeros(more[0]) == [false] + Zeros(stalls[0]);
    assert more[1..] == stalls[1..];
    assert Picture(bits, more) == [false] + Picture(bits, stalls);
  }

  lemma OneMoreFrame(b: bool, levels: seq<bool>, bits: seq<bool>, stalls: seq<nat>)
    requires Drawn(levels, bits, stalls)
    ensures Drawn(FrameOf(b) + levels, [b] + bits, [0] + stalls)
  {
    assert ([b] + bits)[1..] == bits && ([0] + stalls)[1..] == stalls;
    assert Zeros(0) + FrameOf(b) == FrameOf(b);
    assert Picture([b] + bits, [0] + stalls) == FrameOf(b) + Picture(bits, stalls);
  }

  lemma PartialFrame(b: bool, n: nat)
    requires 1 <= n < 10
    ensures Drawn(FrameOf(b)[..n], [b], [0, 0])
  {
    assert [b][1..] == [] && [0, 0][1..] == [0];
    assert Picture([], [0]) == [];
    assert Zeros(0) + FrameOf(b) + [] == FrameOf(b);
  }

  lemma {:induction false} WaveformIsPicture(b0: bool, log: seq<seq<bool>>) returns (stalls: seq<nat>)
    requires WellTimed(Frame(0, b0), log)
    ensures Drawn(Waveform(Frame(0, b0), log), Flatten(log), stalls)
    decreases |log|
  {
    if log == [] {
      stalls := [0];
    } else if log[0] == [] {
      hide Picture, Drawn;
      var rest := WaveformIsPicture(false, log[1..]);
      assert log[0] + Flatten(log[1..]) == Flatten(log[1..]);
      LongerStall(Waveform(Frame(0, false), log[1..]), Flatten(log[1..]), rest);
      stalls := rest[0 := rest[0] + 1];
    } else {
      stalls := StartedFrame(b0, log);
    }
  }

  lemma {:induction false} StartedFrame(b0: bool, log: seq<seq<bool>>) returns (stalls: seq<nat>)
    requires log != [] && log[0] != [] && WellTimed(Frame(0, b0), log)
    ensures Drawn(Waveform(Frame(0, b0), log), Flatten(log), stalls)
    decreases |log|, 0
  {
    hide Picture, Drawn, Waveform, WellTimed, Flatten, FrameOf, Rest;
    if |log| < 10 {
      CutFrame(b0, log);
      stalls := [0, 0];
    } else {
      FrameThenRest(b0, log);
      var b := log[0][0];
      var rest := WaveformIsPicture(b, log[10..]);
      OneMoreFrame(b, Waveform(Frame(0, b), log[10..]), Flatten(log[10..]), rest);
      stalls := [0] + rest;
    }
  }

  lemma CutFrame(b0: bool, log: seq<seq<bool>>)
    requires 1 <= |log| < 10 && log[0] != [] && WellTimed(Frame(0, b0), log)
    ensures Drawn(Waveform(Frame(0, b0), log), Flatten(log), [0, 0])
  {
    hide Picture, Drawn, Waveform, WellTimed, Flatten, FrameOf, Rest;
    FirstCycle(b0, log);
    var b, tail := log[0][0], log[1..];
    CutShort(Frame(1, b), tail);
    FrameHead(b, |tail|);
    assert [b] + [] == [b];
    PartialFrame(b, |log|);
  }

  lemma SliceTwice(log: seq<seq<bool>>)
    requires |log| >= 10
    ensures log[1..][9..] == log[10..]
  {
  }

  /** A bit taken with ten cycles to go: its whole frame, then whatever follows. */
  lemma FrameThenRest(b0: bool, log: seq<seq<bool>>)
    requires |log| >= 10 && log[0] != [] && WellTimed(Frame(0, b0), log)
    ensures var b, after := log[0][0], log[10..];
            && WellTimed(Frame(0, b), after) && Flatten(log) == [b] + Flatten(after)
            && Waveform(Frame(0, b0), log) == FrameOf(b) + Waveform(Frame(0, b), after)
  {
    hide Waveform, WellTimed, Flatten, FrameOf, Rest;
    FirstCycle(b0, log);
    SliceTwice(log);
    var b := log[0][0];
    RestOfFrame(Frame(1, b), log[1..]);
    FrameHead(b, 9);
    Prepend(Rest(Frame(1, b)), Waveform(Frame(0, b), log[10..]));
  }

  lemma Prepend(a: seq<bool>, b: seq<bool>)
    ensures [false] + (a + b) == ([false] + a) + b
  {
  }

  lemma FirstCycle(b0: bool, log: seq<seq<bool>>)
    requires log != [] && log[0] != [] && WellTimed(Frame(0, b0), log)
    ensures var b, tail := log[0][0], log[1..];
            && WellTimed(Frame(1, b), tail) && Flatten(log) == [b] + Flatten(tail)
            && Waveform(Frame(0, b0), log) == [false] + Waveform(Frame(1, b), tail)
  {
    assert log[0] == [log[0][0]];
  }

  lemma FrameHead(b: bool, n: nat)
    requires n <= 9
    ensures [false] + Rest(Frame(1, b))[..n] == FrameOf(b)[..n + 1]
    ensures [false] + Rest(Frame(1, b)) == FrameOf(b)
  {
  }

  /** The bits of the frames are the bits the OUTs delivered. */
  lemma {:induction false} LogIsRunOut(w: World, acts: seq<Act>, g: nat)
    requires InWorld(w, g) && Runnable(acts, w.env)
    ensures Flatten(BitLog(w, acts, g)) == RunOut(w, acts, g)
    decreases acts
  {
    hide Do, CycleBits;
    if acts != [] {
      var v := Do(w, acts[0]);
      RunnableTail(acts, w.env, v.env);
      LogIsRunOut(v, acts[1..], g);
      var log, tail := BitLog(w, acts, g), BitLog(v, acts[1..], g);
      if Fires(w, acts[0], g) {
        assert log[0] == Delivered(w, g) && log[1..] == tail;
      } else {
        assert log == tail && [] + RunOut(v, acts[1..], g) == RunOut(v, acts[1..], g);
      }
    }
  }

  /** Every run of the loop, from waiting for a bit: for the bits OUT delivered, the
      pin shows their ten-cycle frames in order, high for seven cycles of a one and
      two of a zero, and stalls add low cycles between frames and nothing else. */
  lemma RunDrawsFrames(w: World, acts: seq<Act>, g: nat, o: nat, b0: bool)
    requires AtFrame(w, g, o, Frame(0, b0)) && Runnable(acts, w.env)
    ensures InWorld(w, g)
    ensures exists stalls :: Drawn(LevelLog(w, acts, g), RunOut(w, acts, g), stalls)
  {
    hide AtFrame, Waveform, WellTimed, LevelLog, BitLog, RunOut, Drawn, Flatten;
    FrameInWorld(w, g, o, Frame(0, b0));
    WaveformFollowsBits(w, acts, g, o, Frame(0, b0));
    RunIsWellTimed(w, acts, g, o, Frame(0, b0));
    var stalls := WaveformIsPicture(b0, BitLog(w, acts, g));
    LogIsRunOut(w, acts, g);
  }

  // ---- and the bits are the words' bits ---------------------------------------------------

  /** The loaded loop is a one-bit OUT program that stays at home. */
  lemma LoopStreams(w: World, g: nat, o: nat, f: Frame)
    requires AtFrame(w, g, o, f)
    ensures RunsOutOnly(w, g, Home(o, 4), 1)
  {
    hide Decode, WsWord, Assemble, High;
    var p := Home(o, 4);
    forall i | p.Has(i)
      ensures Within(WordAt(w, g, i), p) && OutOnly(WordAt(w, g, i), 1)
    {
      assert w.code[g / 4].insn[o + (i - o)] == WsWord(o, i - o);
      WsMeaning(o, i - o);
    }
  }

  lemma WsMeaning(o: nat, slot: nat)
    requires o + 4 <= 32 && slot < WS_WIDTH
    ensures var op := Decode(WsWord(o, slot)); Within(op, Home(o, 4)) && OutOnly(op, 1)
  {
    hide Decode, Assemble;
    match slot
    case 0 => EncodeDecode(Out(1, 1), 2);
    case 1 => EncodeDecode(Jmp(JMP_NOTX, o + 3), 17);
    case 2 => EncodeDecode(Jmp(0, o), 20);
    case 3 => EncodeDecode(Mov(2, 0, 2), 4);
  }

  /** End to end: the frames on the pin are those of the TX words' bits, in order. */
  lemma FramesAreTheWords(w: World, acts: seq<Act>, g: nat, o: nat, b0: bool)
    requires AtFrame(w, g, o, Frame(0, b0)) && Runnable(acts, w.env) && w.Valid() && g < |w.env.sm| && Streaming(w.env.sm[g], 1)
    ensures exists bits, stalls ::
              && Drawn(LevelLog(w, acts, g), bits, stalls)
              && bits + Stream(Run(w, acts).env.sm[g]) == Stream(w.env.sm[g]) + RunIn(w, acts, g)
  {
    hide AtFrame, Drawn, LevelLog, RunOut, RunIn, Run, Stream, Streaming, RunsOutOnly;
    RunDrawsFrames(w, acts, g, o, b0);
    LoopStreams(w, g, o, Frame(0, b0));
    AutopullStreamsExactly(w, acts, g, Home(o, 4), 1);
    var stalls :| Drawn(LevelLog(w, acts, g), RunOut(w, acts, g), stalls);
  }

  /** Claim `j` of pad set `k` is state machine `g`'s. */
  predicate ClaimantIs(e: Env, k: nat, j: nat, g: nat)
    requires e.Valid() && k < |e.pads|
  {
    j < 4 * |e.topo.owners[k]| && 4 * e.topo.owners[k][j / 4] + j % 4 == g
  }

  /** The pad itself: after a tick in which this machine was the last to write its
      side-set pin, the pad carries the level the frame clock prescribes. */
  lemma PadShowsLevel(w: World, b: nat, g: nat, j: nat)
    requires w.Valid() && b < |w.env.irq| && g < |w.env.sm|
    ensures Runnable(BlockTick(b), w.env)
    ensures var v := Run(w, BlockTick(b));
            var k := w.env.topo.padIx[b];
            var pin := SpanPin(GpioBase(v.env, g), v.env.sm[g].cfg.sideBase, 0);
            && k < |v.env.pads|
            && (WinsLevel(Claims(v.env, k), pin, j) && ClaimantIs(v.env, k, j, g) ==>
                  (pin in v.env.pads[k].levels <==> High(v, g)))
  {
    hide Run, Runnable, SpanPin, Claims, WinsLevel;
    TickPads.TickResolvesOnce(w, b);
    var v, k := Run(w, BlockTick(b)), w.env.topo.padIx[b];
    var pin := SpanPin(GpioBase(v.env, g), v.env.sm[g].cfg.sideBase, 0);
    TickPads.LevelAfterTick(w, b, pin, j);
    if WinsLevel(Claims(v.env, k), pin, j) { ClaimLevel(v.env, k, pin, j); }
  }

  lemma ClaimLevel(e: Env, k: nat, pin: nat, j: nat)
    requires e.Valid() && k < |e.pads| && WinsLevel(Claims(e, k), pin, j)
    ensures j < 4 * |e.topo.owners[k]| && Claims(e, k)[j].val == e.sm[4 * e.topo.owners[k][j / 4] + j % 4].outVal
  {
  }
}
