/** Autopush: every bit IN samples reaches the host, once and in order. */
module Autopush {
  import opened Bits
  import opened Isa
  import opened Machine
  import opened Runs
  import opened Window
  import Shift

  /** The last `n` bits shifted into a word, in order of arrival. */
  function Tail(dir: Dir, w: Word, n: nat): seq<bool>
    requires n <= 32
  {
    Shift.InOrder(dir, if dir == Right then w[32 - n..] else w[..n])
  }

  function QueueTails(dir: Dir, t: nat, q: seq<Word>): seq<bool>
    requires t <= 32
  {
    if q == [] then [] else Tail(dir, q[0], t) + QueueTails(dir, t, q[1..])
  }

  /** Autopush on, the threshold a multiple of the IN width, the ISR at a chunk
      boundary below it, RX a FIFO, nothing injected. */
  predicate Gathering(sm: Sm, c: nat) {
    && sm.cfg.autopush && 1 <= c <= sm.cfg.pushThresh <= 32 && !RegisterFile(sm.cfg.join)
    && sm.isrCount < sm.cfg.pushThresh && (sm.cfg.pushThresh - sm.isrCount) % c == 0
    && sm.cfg.pushThresh % c == 0 && !sm.execPending
  }

  /** Bits sampled and not yet read by the host: RX, then the ISR. */
  function Collected(sm: Sm): seq<bool>
    requires sm.cfg.pushThresh <= 32 && sm.isrCount <= 32
  {
    QueueTails(sm.cfg.inDir, sm.cfg.pushThresh, sm.rx.Contents()) + Tail(sm.cfg.inDir, sm.isr, sm.isrCount)
  }

  /** Instructions that touch the ISR only by INs of width `c`, and inject nothing. */
  predicate InOnly(op: Op, c: nat) {
    && !op.Push? && !(op.RxFifo? && !op.get)
    && (op.Mov? ==> op.dest != 4 && op.dest != 6)
    && (op.Out? ==> op.dest != 6 && op.dest != 7)
    && (op.In? ==> op.count == c)
  }

  lemma TailGrows(dir: Dir, isr: Word, v: Word, n: nat, c: nat)
    requires 1 <= c && n + c <= 32
    ensures Tail(dir, ShiftIn(dir, isr, v, c), n + c) == Tail(dir, isr, n) + Shift.InOrder(dir, v[..c])
  {
    Shift.ShiftInBits(dir, isr, v, c);
    hide ShiftIn;
    if dir == Right {
      assert (isr[c..] + v[..c])[32 - (n + c)..] == isr[32 - n..] + v[..c];
    } else {
      assert (v[..c] + isr[..32 - c])[..n + c] == v[..c] + isr[..n];
      ReverseConcat(v[..c], isr[..n]);
    }
  }

  lemma {:induction false} TailsAppend(dir: Dir, t: nat, q: seq<Word>, w: Word)
    requires t <= 32
    ensures QueueTails(dir, t, q + [w]) == QueueTails(dir, t, q) + Tail(dir, w, t)
  {
    if q == [] {
      assert q + [w] == [w];
      assert QueueTails(dir, t, [w][1..]) == [];
    } else {
      assert (q + [w])[1..] == q[1..] + [w];
      TailsAppend(dir, t, q[1..], w);
    }
  }

  lemma TailNone(dir: Dir, w: Word)
    ensures Tail(dir, w, 0) == []
  {
  }

  /** An IN that does not stall: shift, and push when the threshold is reached. */
  lemma InUnfolds(sm: Sm, v: Word, c: nat)
    requires Gathering(sm, c) && !InSm(sm, v, c).1
    ensures var n, t := sm.isrCount, sm.cfg.pushThresh;
            var s := sm.(isr := ShiftIn(sm.cfg.inDir, sm.isr, v, c), isrCount := n + c);
            && n + c <= t && (t - (n + c)) % c == 0 && (n + c == t ==> !sm.rx.Full())
            && InSm(sm, v, c).0 == if n + c == t then Drain(s) else s
  {
    hide ShiftIn, Drain;
    Shift.MultipleLeft(sm.cfg.pushThresh - sm.isrCount, c);
  }

  lemma InKeepsRegime(sm: Sm, v: Word, c: nat)
    requires Gathering(sm, c) && !InSm(sm, v, c).1
    ensures Gathering(InSm(sm, v, c).0, c)
  {
    InUnfolds(sm, v, c);
    hide InSm, ShiftIn;
  }

  /** The bits of an IN join the ISR's. */
  lemma ShiftedGathers(sm: Sm, v: Word, c: nat)
    requires 1 <= c && sm.isrCount + c <= 32 && sm.cfg.pushThresh <= 32
    ensures Collected(sm.(isr := ShiftIn(sm.cfg.inDir, sm.isr, v, c), isrCount := sm.isrCount + c))
         == Collected(sm) + Shift.InOrder(sm.cfg.inDir, v[..c])
  {
    hide Tail, ShiftIn, QueueTails, Shift.InOrder;
    TailGrows(sm.cfg.inDir, sm.isr, v, sm.isrCount, c);
    var q := QueueTails(sm.cfg.inDir, sm.cfg.pushThresh, sm.rx.Contents());
    Shift.Associate(q, Tail(sm.cfg.inDir, sm.isr, sm.isrCount), Shift.InOrder(sm.cfg.inDir, v[..c]));
  }

  lemma RegimeBounds(sm: Sm, c: nat)
    requires Gathering(sm, c)
    ensures 1 <= c && sm.cfg.pushThresh <= 32
  {
  }

  /** What an IN that does not stall adds. */
  lemma InGathers(sm: Sm, v: Word, c: nat)
    requires Gathering(sm, c) && !InSm(sm, v, c).1
    ensures var r := InSm(sm, v, c).0;
            Gathering(r, c) && Collected(r) == Collected(sm) + Shift.InOrder(sm.cfg.inDir, v[..c])
  {
    InKeepsRegime(sm, v, c);
    InUnfolds(sm, v, c);
    RegimeBounds(sm, c);
    hide InSm, Gathering, Collected, ShiftIn, Drain, Shift.InOrder;
    var s := sm.(isr := ShiftIn(sm.cfg.inDir, sm.isr, v, c), isrCount := sm.isrCount + c);
    ShiftedGathers(sm, v, c);
    if s.isrCount == sm.cfg.pushThresh { DrainGathers(s); }
  }

  /** Pushing a full ISR moves its bits into RX. */
  lemma DrainGathers(s: Sm)
    requires s.cfg.pushThresh <= 32 && s.isrCount == s.cfg.pushThresh && !s.rx.Full()
    ensures Collected(Drain(s)) == Collected(s)
  {
    var dir, t := s.cfg.inDir, s.cfg.pushThresh;
    TailsAppend(dir, t, s.rx.Contents(), s.isr);
    TailNone(dir, ZERO);
    hide Tail, QueueTails;
  }

  lemma StalledIn(sm: Sm, v: Word, c: nat)
    requires 1 <= c <= 32 && InSm(sm, v, c).1
    ensures SameIn(sm, InSm(sm, v, c).0)
  {
    hide ShiftIn;
  }

  lemma SameCollected(a: Sm, b: Sm, c: nat)
    requires Gathering(a, c) && SameIn(a, b) && SameSlot(a, b) && b.cfg == a.cfg
    ensures Gathering(b, c) && Collected(b) == Collected(a)
  {
    hide Tail, QueueTails;
  }

  lemma OtherOpKeeps(e: Env, g: nat, op: Op, c: nat)
    requires Has(e, g) && Encodable(op) && InOnly(op, c) && !op.In?
    ensures var r := ExecOp(e, g, op).env.sm[g]; SameIn(e.sm[g], r) && SameSlot(e.sm[g], r)
  {
    hide ExecJmp, ExecWait, ExecIrq, ExecSet, ExecPull, ExecRxFifo, ExecOut, ExecMov;
    if op.Out? { OutKeepsSlot(e, g, op.dest, op.count); }
    if op.Mov? { MovKeepsSlot(e, g, op.dest, op.op, op.src); }
  }

  lemma OutKeepsSlot(e: Env, g: nat, dest: nat, count: nat)
    requires Has(e, g) && 1 <= count <= 32 && dest != 7
    ensures SameSlot(e.sm[g], ExecOut(e, g, dest, count).env.sm[g])
  {
    hide DrivePindirs, OutPins, ShiftOutValue, OutShifted, Low16;
  }

  lemma MovKeepsSlot(e: Env, g: nat, dest: nat, mop: nat, src: nat)
    requires Has(e, g) && dest < 8 && dest != 4
    ensures SameSlot(e.sm[g], ExecMov(e, g, dest, mop, src).env.sm[g])
  {
    hide DrivePins, DrivePindirs, ReadSource, MovValue;
  }

  /** The bits a presented instruction samples. */
  function InBits(e: Env, g: nat, op: Op): seq<bool>
    requires Has(e, g) && Encodable(op)
  {
    if op.In? && !InSm(e.sm[g], ReadSource(e, g, op.src), op.count).1 then
      Shift.InOrder(e.sm[g].cfg.inDir, ReadSource(e, g, op.src)[..op.count])
    else []
  }

  lemma OpGathers(e: Env, g: nat, op: Op, c: nat)
    requires Has(e, g) && Encodable(op) && InOnly(op, c) && Gathering(e.sm[g], c)
    ensures var r := ExecOp(e, g, op).env.sm[g];
            Gathering(r, c) && Collected(r) == Collected(e.sm[g]) + InBits(e, g, op)
  {
    hide Collected, InSm, ReadSource;
    if op.In? {
      var v := ReadSource(e, g, op.src);
      if InSm(e.sm[g], v, c).1 {
        StalledIn(e.sm[g], v, c);
        SameCollected(e.sm[g], InSm(e.sm[g], v, c).0, c);
      } else {
        InGathers(e.sm[g], v, c);
      }
    } else {
      OtherOpKeeps(e, g, op, c);
      SameCollected(e.sm[g], ExecOp(e, g, op).env.sm[g], c);
    }
  }

  lemma PresentGathers(w: World, g: nat, insn: Insn, c: nat)
    requires InWorld(w, g) && InOnly(Decode(insn), c) && Gathering(w.env.sm[g], c)
    ensures var r := PresentInsn(w, g, insn, false).env.sm[g];
            Gathering(r, c) && Collected(r) == Collected(w.env.sm[g]) + InBits(w.env, g, Decode(insn))
  {
    hide InBits, Collected, ExecOp, ApplySide, Decode, Gathering;
    OpGathers(w.env, g, Decode(insn), c);
    var r1 := ExecOp(w.env, g, Decode(insn));
    var r2 := ExecOne(w.env, g, insn);
    SameCollected(r1.env.sm[g], r2.env.sm[g], c);
    SlotFree(r2.env.sm[g], c);
    SameCollected(r2.env.sm[g], PresentInsn(w, g, insn, false).env.sm[g], c);
  }

  lemma SlotFree(sm: Sm, c: nat)
    requires Gathering(sm, c)
    ensures !sm.execPending && sm.isrCount <= 32 && sm.cfg.pushThresh <= 32
  {
  }

  /** State machine `g` runs a program at `p` whose words keep to the regime; the rest
      of the block's memory may hold anything. */
  ghost predicate RunsInOnly(w: World, g: nat, p: Home, c: nat) {
    Confined(w, g, p) && forall i :: p.Has(i) ==> InOnly(WordAt(w, g, i), c)
  }

  lemma StillInOnly(w: World, v: World, g: nat, p: Home, c: nat)
    requires RunsInOnly(w, g, p, c) && Confined(v, g, p) && v.code[g / 4].insn == w.code[g / 4].insn
    ensures RunsInOnly(v, g, p, c)
  {
    hide Decode, InOnly, Confined;
    assert InWorld(w, g) && InWorld(v, g) by { ConfinedWorld(w, g, p); ConfinedWorld(v, g, p); }
    forall i | p.Has(i)
      ensures InOnly(WordAt(v, g, i), c)
    {
      assert WordAt(v, g, i) == WordAt(w, g, i);
    }
  }

  lemma ConfinedRuns(w: World, g: nat, p: Home, c: nat)
    requires RunsInOnly(w, g, p, c)
    ensures Confined(w, g, p) && InWorld(w, g)
  {
  }

  lemma PresentsInOnly(w: World, g: nat, p: Home, c: nat)
    requires RunsInOnly(w, g, p, c) && !w.env.sm[g].execPending
    ensures InOnly(Decode(Presented(w, g)), c)
  {
    hide Decode, InOnly;
    SmallMod(w.flow[g].pc, 32);
    assert InOnly(WordAt(w, g, w.flow[g].pc), c);
  }

  /** The bits a cycle samples. */
  function CycleIn(w: World, g: nat): seq<bool>
    requires InWorld(w, g)
  {
    var sm := Autopull(w.env.sm[g]);
    if sm.delay > 0 then [] else InBits(WithSm(w, g, sm).env, g, Decode(Presented(w, g)))
  }

  lemma CycleGathers(w: World, g: nat, p: Home, c: nat)
    requires RunsInOnly(w, g, p, c) && Gathering(w.env.sm[g], c)
    ensures var r := SmCycle(w, g).env.sm[g];
            Gathering(r, c) && Collected(r) == Collected(w.env.sm[g]) + CycleIn(w, g)
  {
    hide InBits, Collected, PresentInsn, Decode, InOnly, Gathering, RunsInOnly, Confined, Autopull, SmCycle, CycleIn;
    ConfinedRuns(w, g, p, c);
    SlotFree(w.env.sm[g], c);
    PresentsInOnly(w, g, p, c);
    CycleUnfold(w, g);
    var sm := Autopull(w.env.sm[g]);
    SameCollected(w.env.sm[g], sm, c);
    if sm.delay > 0 {
      SameCollected(sm, sm.(delay := sm.delay - 1), c);
    } else {
      PresentGathers(WithSm(w, g, sm), g, Presented(w, g), c);
    }
  }

  lemma CycleUnfold(w: World, g: nat)
    requires InWorld(w, g)
    ensures var sm := Autopull(w.env.sm[g]);
            && LocalTo(w.env.sm[g], sm) && SameIn(w.env.sm[g], sm)
            && (if sm.delay > 0 then SmCycle(w, g) == WithSm(w, g, sm.(delay := sm.delay - 1)) && CycleIn(w, g) == []
                else SmCycle(w, g) == PresentInsn(WithSm(w, g, sm), g, Presented(w, g), sm.execPending)
                     && CycleIn(w, g) == InBits(WithSm(w, g, sm).env, g, Decode(Presented(w, g))))
  {
    hide PresentInsn, InBits, Decode;
  }

  /** The bits state machine `g` samples if it is clocked now. */
  function Sampled(w: World, g: nat): seq<bool>
    requires InWorld(w, g)
  {
    if Due(w.env.sm[g]) && w.env.sm[g].enabled then CycleIn(WithSm(w, g, Ticked(w.env.sm[g])), g) else []
  }

  lemma ClockGathers(w: World, g: nat, p: Home, c: nat)
    requires RunsInOnly(w, g, p, c) && Gathering(w.env.sm[g], c)
    ensures var r := Clock(w, g).env.sm[g];
            Gathering(r, c) && Collected(r) == Collected(w.env.sm[g]) + Sampled(w, g)
  {
    hide Collected, SmCycle, CycleIn, Gathering, RunsInOnly, Confined;
    ConfinedRuns(w, g, p, c);
    var sm := w.env.sm[g];
    SlotFree(sm, c);
    SameCollected(sm, Ticked(sm), c);
    var w1 := WithSm(w, g, Ticked(sm));
    if Due(sm) && sm.enabled {
      StaysHome(w, w1, g, p);
      StillInOnly(w, w1, g, p, c);
      CycleGathers(w1, g, p, c);
      var r := SmCycle(w1, g).env.sm[g];
      SameCollected(r, Sticky(r), c);
    }
  }

  // ---- runs ------------------------------------------------------------------------------

  /** The bits of the word a host read takes. */
  function ReadBits(sm: Sm): seq<bool>
    requires sm.cfg.pushThresh <= 32
  {
    if sm.rx.Empty() then [] else Tail(sm.cfg.inDir, sm.rx.Pop().1, sm.cfg.pushThresh)
  }

  lemma GetReads(sm: Sm, c: nat)
    requires Gathering(sm, c)
    ensures var r := GetWord(sm); Gathering(r, c) && ReadBits(sm) + Collected(r) == Collected(sm)
  {
    if !sm.rx.Empty() {
      var q := sm.rx.Contents();
      var p := sm.rx.Pop();
      assert q[0] == p.1 && q[1..] == p.0.Contents();
      hide Tail;
    }
  }

  function ActReads(w: World, act: Act, g: nat): seq<bool>
    requires InWorld(w, g) && w.env.sm[g].cfg.pushThresh <= 32
  {
    if act == Get(g) then ReadBits(w.env.sm[g]) else []
  }

  function ActSamples(w: World, act: Act, g: nat): seq<bool>
    requires InWorld(w, g)
  {
    if act == ClockSm(g) then Sampled(w, g) else []
  }

  /** Every act conserves the bits: read ++ still collected == collected ++ sampled. */
  lemma ActConserves(w: World, act: Act, g: nat, p: Home, c: nat)
    requires RunsInOnly(w, g, p, c) && Applies(act, w.env) && Gathering(w.env.sm[g], c)
    ensures var r := Do(w, act);
            && Gathering(r.env.sm[g], c) && RunsInOnly(r, g, p, c)
            && ActReads(w, act, g) + Collected(r.env.sm[g]) == Collected(w.env.sm[g]) + ActSamples(w, act, g)
  {
    hide Clock, DoEnv, Collected, Sampled, ReadBits, RunsInOnly, Confined, Gathering;
    ConfinedRuns(w, g, p, c);
    SlotFree(w.env.sm[g], c);
    DoKeepsCode(w, act, g / 4);
    ActConfined(w, act, g, p);
    StillInOnly(w, Do(w, act), g, p, c);
    if act.ClockSm? {
      if act.g == g { ClockGathers(w, g, p, c); }
    } else {
      HostActConserves(w.env, act, g, c);
    }
  }

  lemma HostActConserves(e: Env, act: Act, g: nat, c: nat)
    requires Has(e, g) && Applies(act, e) && !act.ClockSm? && Gathering(e.sm[g], c)
    ensures var r := DoEnv(e, act).sm[g];
            Gathering(r, c) && (if act == Get(g) then ReadBits(e.sm[g]) else []) + Collected(r) == Collected(e.sm[g])
  {
    hide DoEnv, Collected, ReadBits, GetWord, PutWord, Gathering;
    if act == Get(g) {
      ActOnRecord(e, act, g);
      GetReads(e.sm[g], c);
    } else {
      EnvActFrame(e, act, g);
      SameCollected(e.sm[g], DoEnv(e, act).sm[g], c);
    }
  }

  /** Bits the host reads during a run. */
  function RunReads(w: World, acts: seq<Act>, g: nat, p: Home, c: nat): seq<bool>
    requires RunsInOnly(w, g, p, c) && Runnable(acts, w.env) && Gathering(w.env.sm[g], c)
    decreases acts
  {
    if acts == [] then []
    else
      ActConserves(w, acts[0], g, p, c);
      RunnableTail(acts, w.env, Do(w, acts[0]).env);
      ActReads(w, acts[0], g) + RunReads(Do(w, acts[0]), acts[1..], g, p, c)
  }

  /** Bits the state machine samples during a run. */
  function RunSamples(w: World, acts: seq<Act>, g: nat): seq<bool>
    requires InWorld(w, g) && Runnable(acts, w.env)
    decreases acts
  {
    if acts == [] then []
    else
      RunnableTail(acts, w.env, Do(w, acts[0]).env);
      ActSamples(w, acts[0], g) + RunSamples(Do(w, acts[0]), acts[1..], g)
  }

  /** Autopush delivers exactly. Over every run, with any stalls, delays and host
      acts: bits read ++ bits still collected == bits collected before ++ bits
      sampled, in order. A stalled IN samples nothing. */
  lemma {:induction false} AutopushDeliversExactly(w: World, acts: seq<Act>, g: nat, p: Home, c: nat)
    requires RunsInOnly(w, g, p, c) && Runnable(acts, w.env) && Gathering(w.env.sm[g], c)
    ensures InWorld(w, g)
    ensures var r := Run(w, acts).env.sm[g];
            && Gathering(r, c)
            && RunReads(w, acts, g, p, c) + Collected(r) == Collected(w.env.sm[g]) + RunSamples(w, acts, g)
    decreases acts
  {
    hide Do, Collected, ActReads, ActSamples, Gathering, RunsInOnly;
    ConfinedRuns(w, g, p, c);
    SlotFree(w.env.sm[g], c);
    if acts != [] {
      var act := acts[0];
      ActConserves(w, act, g, p, c);
      ConfinedRuns(Do(w, act), g, p, c);
      var v := Do(w, act);
      RunnableTail(acts, w.env, v.env);
      AutopushDeliversExactly(v, acts[1..], g, p, c);
      SlotFree(v.env.sm[g], c);
      SlotFree(Run(v, acts[1..]).env.sm[g], c);
      Shift.Regroup(ActReads(w, act, g), RunReads(v, acts[1..], g, p, c), Collected(Run(v, acts[1..]).env.sm[g]),
                    Collected(v.env.sm[g]), RunSamples(v, acts[1..], g), Collected(w.env.sm[g]), ActSamples(w, act, g));
    }
  }
}
