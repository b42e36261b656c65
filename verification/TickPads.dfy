/** All the resolves inside a tick amount to one resolve at its end. */
module TickPads {
  import opened Isa
  import opened Pads
  import opened PadResolve
  import opened Machine
  import opened Runs

  /** Two level masks differ only on pins somebody wrote this cycle. */
  ghost predicate SameUnwritten(cs: seq<Claim>, a: Pins, b: Pins) {
    forall pin :: Unwritten(cs, pin) ==> (pin in a <==> pin in b)
  }

  /** Levels on written pins do not matter to a resolve. */
  lemma FoldForgets(cs: seq<Claim>, a: Pins, b: Pins)
    requires SameUnwritten(cs, a, b)
    ensures FoldLevels(cs, a) == FoldLevels(cs, b)
  {
    forall pin
      ensures pin in FoldLevels(cs, a) <==> pin in FoldLevels(cs, b)
    {
      LevelDecided(cs, pin);
      if Unwritten(cs, pin) {
        FoldLevelsUnwritten(cs, a, pin);
        FoldLevelsUnwritten(cs, b, pin);
      } else {
        var j :| WinsLevel(cs, pin, j);
        FoldLevelsWinner(cs, a, pin, j);
        FoldLevelsWinner(cs, b, pin, j);
      }
    }
  }

  lemma FoldKeepsUnwritten(cs: seq<Claim>, a: Pins)
    ensures SameUnwritten(cs, a, FoldLevels(cs, a))
  {
    forall pin | Unwritten(cs, pin)
      ensures pin in a <==> pin in FoldLevels(cs, a)
    {
      FoldLevelsUnwritten(cs, a, pin);
    }
  }

  /** Pad set `k` has strayed from the levels `start` only on written pins. */
  ghost predicate Owes(e: Env, k: nat, start: Pins)
    requires e.Valid() && k < |e.pads|
  {
    SameUnwritten(Claims(e, k), start, e.pads[k].levels)
  }

  lemma ClaimsGrow(e: Env, r: Env, g: nat, k: nat, pin: nat)
    requires StepBy(e, r, g) && k < |e.pads| && e.sm[g].wrote <= r.sm[g].wrote
    requires r.pads[k].funcMask == e.pads[k].funcMask
    requires Unwritten(Claims(r, k), pin)
    ensures Unwritten(Claims(e, k), pin)
  {
    forall i | 0 <= i < |Claims(e, k)|
      ensures pin !in Claims(e, k)[i].written
    {
      assert pin !in Claims(r, k)[i].written;
      var h := 4 * e.topo.owners[k][i / 4] + i % 4;
      assert r.sm[h] == if h == g then r.sm[g] else e.sm[h];
    }
  }

  /** An instruction that only adds writes keeps the debt on written pins. */
  lemma StepOwes(e: Env, r: Env, g: nat, k: nat, start: Pins)
    requires StepBy(e, r, g) && (r.pads == e.pads || Repads(e, r, g)) && k < |e.pads|
    requires e.sm[g].wrote <= r.sm[g].wrote && Owes(e, k, start)
    ensures Owes(r, k, start)
  {
    var mid := PutSm(e, g, r.sm[g]);
    var cs := Claims(r, k);
    assert r.pads[k].funcMask == e.pads[k].funcMask;
    assert Claims(mid, k) == cs;
    forall pin | Unwritten(cs, pin)
      ensures pin in start <==> pin in r.pads[k].levels
    {
      ClaimsGrow(e, r, g, k, pin);
      FoldLevelsUnwritten(cs, e.pads[k].levels, pin);
    }
  }

  /** A bookkeeping update that leaves pads alone and loses no write. */
  lemma PutOwes(e: Env, g: nat, sm: Sm, k: nat, start: Pins)
    requires Has(e, g) && k < |e.pads| && e.sm[g].wrote <= sm.wrote && Owes(e, k, start)
    ensures Owes(PutSm(e, g, sm), k, start)
  {
    StepOwes(e, PutSm(e, g, sm), g, k, start);
  }

  lemma PresentOwes(w: World, g: nat, insn: Insn, fromExec: bool, k: nat, start: Pins)
    requires InWorld(w, g) && k < |w.env.pads| && w.env.sm[g].wrote == {} && Owes(w.env, k, start)
    ensures Owes(PresentInsn(w, g, insn, fromExec).env, k, start)
  {
    hide ExecOp, ApplySide, Decode, DelaySideOf;
    var r := ExecOp(w.env, g, Decode(insn));
    StepOwes(w.env, r.env, g, k, start);
    var side := ApplySide(r.env, g, DelaySideOf(w.env.sm[g].cfg, insn));
    StepOwes(r.env, side, g, k, start);
    PutOwes(side, g, Retire(side.sm[g], r.stalled, fromExec, DelaySideOf(w.env.sm[g].cfg, insn).delay), k, start);
  }

  lemma CycleOwes(w: World, g: nat, k: nat, start: Pins)
    requires InWorld(w, g) && k < |w.env.pads| && w.env.sm[g].wrote == {} && Owes(w.env, k, start)
    ensures Owes(SmCycle(w, g).env, k, start)
  {
    hide PresentInsn;
    var sm := Autopull(w.env.sm[g]);
    if sm.delay > 0 {
      PutOwes(w.env, g, sm.(delay := sm.delay - 1), k, start);
    } else {
      PutOwes(w.env, g, sm, k, start);
      var w1 := WithSm(w, g, sm);
      PresentOwes(w1, g, Presented(w1, g), sm.execPending, k, start);
    }
  }

  lemma ClockOwes(w: World, g: nat, k: nat, start: Pins)
    requires InWorld(w, g) && k < |w.env.pads| && w.env.sm[g].wrote == {} && Owes(w.env, k, start)
    ensures Owes(Clock(w, g).env, k, start)
  {
    hide SmCycle, Owes;
    var sm := w.env.sm[g];
    var sm1 := Ticked(sm);
    PutOwes(w.env, g, sm1, k, start);
    if Due(sm) && sm.enabled {
      var w1 := WithSm(w, g, sm1);
      CycleOwes(w1, g, k, start);
      var w2 := SmCycle(w1, g);
      PutOwes(w2.env, g, Sticky(w2.env.sm[g]), k, start);
    }
  }

  /** State machines lo..hi-1 have written nothing yet this cycle. */
  ghost predicate Quiet(e: Env, lo: nat, hi: nat) {
    forall g :: lo <= g < hi && g < |e.sm| ==> e.sm[g].wrote == {}
  }

  /** The four state machines of block `b`, in number order. */
  function FourClocks(w: World, b: nat): (r: World)
    requires w.Valid() && b < |w.env.irq|
    ensures r.Valid() && SameShape(w.env, r.env)
  {
    Clock(Clock(Clock(Clock(w, 4 * b), 4 * b + 1), 4 * b + 2), 4 * b + 3)
  }

  lemma ClocksOwe(w: World, b: nat, k: nat, start: Pins, hi: nat)
    requires w.Valid() && b < |w.env.irq| && k < |w.env.pads| && Owes(w.env, k, start)
    requires Quiet(w.env, 4 * b, hi) && 4 * b + 4 <= hi
    ensures Owes(FourClocks(w, b).env, k, start) && Quiet(FourClocks(w, b).env, 4 * b + 4, hi)
  {
    hide Clock, Owes;
    var w1 := Clock(w, 4 * b);
    ClockOwes(w, 4 * b, k, start);
    var w2 := Clock(w1, 4 * b + 1);
    ClockOwes(w1, 4 * b + 1, k, start);
    var w3 := Clock(w2, 4 * b + 2);
    ClockOwes(w2, 4 * b + 2, k, start);
    ClockOwes(w3, 4 * b + 3, k, start);
  }

  /** Pad set `k` carries exactly what one resolve of the final registers, from
      the levels latched at `start`, produces. */
  ghost predicate ResolvedFrom(e: Env, k: nat, start: Pins)
    requires e.Valid() && k < |e.pads|
  {
    var cs := Claims(e, k);
    && e.pads[k].levels == FoldLevels(cs, start)
    && e.pads[k].dirs == FoldDirs(cs, FoldDirs(cs, {}, false), true)
  }

  lemma CloseResolves(e: Env, k: nat, start: Pins)
    requires e.Valid() && k < |e.pads| && Owes(e, k, start)
    ensures ResolvedFrom(ResolvePads(e, k), k, start) && Owes(ResolvePads(e, k), k, start)
  {
    var r := ResolvePads(e, k);
    assert Claims(r, k) == Claims(e, k);
    FoldForgets(Claims(e, k), start, e.pads[k].levels);
    FoldKeepsUnwritten(Claims(e, k), start);
  }

  /** A block's tick, act by act. */
  lemma RunBlockTick(w: World, b: nat)
    requires w.Valid() && b < |w.env.irq|
    ensures Runnable(BlockTick(b), w.env)
    ensures var w0 := World(OpenWindow(w.env, b), w.flow, w.code);
            var w4 := FourClocks(w0, b);
            Run(w, BlockTick(b)) == World(ResolvePads(w4.env, w4.env.topo.padIx[b]), w4.flow, w4.code)
  {
    hide Run, Do, DoEnv, Runnable, ResolvePads, OpenWindow, FourClocks;
    var w0 := Do(w, Open(b));
    DoWindow(w, b);
    var rest := Clocks(b) + [Close(b)];
    assert BlockTick(b) == [Open(b)] + rest;
    hide Clocks, BlockTick;
    RunLast(w, Close(b));
    RunLast(w0, Close(b));
    RunFourClocks(w, b, [Close(b)]);
    RunFourClocks(w0, b, [Close(b)]);
    RunCons(w, Open(b), rest);
    var w4 := FourClocks(w0, b);
    RunLast(w4, Close(b));
    DoWindow(w4, b);
  }

  lemma DoWindow(w: World, b: nat)
    requires w.Valid() && b < |w.env.irq|
    ensures Do(w, Open(b)) == World(OpenWindow(w.env, b), w.flow, w.code)
    ensures Do(w, Close(b)) == World(ResolvePads(w.env, w.env.topo.padIx[b]), w.flow, w.code)
  {
  }

  function Clocks(b: nat): seq<Act> {
    [ClockSm(4 * b), ClockSm(4 * b + 1), ClockSm(4 * b + 2), ClockSm(4 * b + 3)]
  }

  lemma RunFourClocks(w: World, b: nat, rest: seq<Act>)
    requires w.Valid() && b < |w.env.irq| && Runnable(rest, w.env)
    ensures Runnable(Clocks(b) + rest, w.env) && Runnable(rest, FourClocks(w, b).env)
    ensures Run(w, Clocks(b) + rest) == Run(FourClocks(w, b), rest)
  {
    hide Run, Clock;
    var w1 := Do(w, ClockSm(4 * b));
    var w2 := Do(w1, ClockSm(4 * b + 1));
    var w3 := Do(w2, ClockSm(4 * b + 2));
    var r3 := [ClockSm(4 * b + 3)] + rest;
    var r2 := [ClockSm(4 * b + 2)] + r3;
    var r1 := [ClockSm(4 * b + 1)] + r2;
    assert Clocks(b) + rest == [ClockSm(4 * b)] + r1;
    RunCons(w, ClockSm(4 * b), r1);
    RunCons(w1, ClockSm(4 * b + 1), r2);
    RunCons(w2, ClockSm(4 * b + 2), r3);
    RunCons(w3, ClockSm(4 * b + 3), rest);
  }

  lemma RunLast(w: World, act: Act)
    requires w.Valid() && Applies(act, w.env)
    ensures Runnable([act], w.env) && Run(w, [act]) == Do(w, act)
  {
    hide Do;
    assert [act][1..] == [];
  }

  lemma BlockTickOwes(w: World, b: nat, k: nat, start: Pins, hi: nat)
    requires w.Valid() && b < |w.env.irq| && k == w.env.topo.padIx[b] && 4 * b + 4 <= hi
    requires Owes(OpenWindow(w.env, b), k, start) && Quiet(w.env, 4 * b + 4, hi)
    ensures Runnable(BlockTick(b), w.env)
    ensures var r := Run(w, BlockTick(b)).env;
            && SameShape(w.env, r) && Owes(r, k, start) && Quiet(r, 4 * b + 4, hi)
            && ResolvedFrom(r, k, start)
  {
    hide Owes, ResolvedFrom, ResolvePads, Run, BlockTick, Runnable, FourClocks;
    RunBlockTick(w, b);
    var w0 := World(OpenWindow(w.env, b), w.flow, w.code);
    assert Quiet(w0.env, 4 * b, hi);
    ClocksOwe(w0, b, k, start, hi);
    CloseResolves(FourClocks(w0, b).env, k, start);
  }

  /** A standalone tick: whatever the intermediate resolves did, the pads end as
      one resolve of the tick's final registers from the levels before it. */
  lemma TickResolvesOnce(w: World, b: nat)
    requires w.Valid() && b < |w.env.irq|
    ensures Runnable(BlockTick(b), w.env)
    ensures ResolvedFrom(Run(w, BlockTick(b)).env, w.env.topo.padIx[b], w.env.pads[w.env.topo.padIx[b]].levels)
  {
    BlockTickOwes(w, b, w.env.topo.padIx[b], w.env.pads[w.env.topo.padIx[b]].levels, 4 * b + 4);
  }

  lemma {:induction false} OpenAllRuns(w: World, n: nat, i: nat)
    requires w.Valid() && i <= n <= |w.env.irq| && Quiet(w.env, 0, 4 * i)
    ensures Runnable(OpenAll(n)[i..], w.env)
    ensures var r := Run(w, OpenAll(n)[i..]);
            SameShape(w.env, r.env) && r.env.pads == w.env.pads && Quiet(r.env, 0, 4 * n)
    decreases n - i
  {
    var acts := OpenAll(n)[i..];
    if i < n {
      assert acts[0] == Open(i) && acts[1..] == OpenAll(n)[i + 1..];
      OpenAllRuns(Do(w, Open(i)), n, i + 1);
    }
  }

  lemma ReopenIsNoop(e: Env, b: nat)
    requires e.Valid() && b < |e.irq| && Quiet(e, 4 * b, 4 * b + 4)
    ensures OpenWindow(e, b) == e
  {
    assert OpenWindow(e, b).sm == e.sm;
  }

  lemma {:induction false} BlockTicksOwe(w: World, m: nat, k: nat, start: Pins)
    requires w.Valid() && 1 <= m <= |w.env.irq| && k < |w.env.pads| && Owes(w.env, k, start)
    requires Quiet(w.env, 0, 4 * |w.env.irq|)
    requires forall b :: 0 <= b < |w.env.irq| ==> w.env.topo.padIx[b] == k
    ensures Runnable(BlockTicks(m), w.env)
    ensures var r := Run(w, BlockTicks(m)).env;
            && SameShape(w.env, r) && Owes(r, k, start) && Quiet(r, 4 * m, 4 * |w.env.irq|)
            && ResolvedFrom(r, k, start)
    decreases m
  {
    hide Owes, ResolvedFrom, BlockTick, Run, Runnable, OpenWindow;
    var hi := 4 * |w.env.irq|;
    LastBlock(m);
    NoBlocks(w);
    if m > 1 { BlockTicksOwe(w, m - 1, k, start); }
    hide BlockTicks;
    var v := Run(w, BlockTicks(m - 1));
    QuietPart(v.env, m, hi);
    hide Quiet;
    ReopenIsNoop(v.env, m - 1);
    BlockTickOwes(v, m - 1, k, start, hi);
    RunBlockTick(w, m - 1);
    RunConcat(w, BlockTicks(m - 1), BlockTick(m - 1));
  }

  lemma LastBlock(m: nat)
    requires m >= 1
    ensures BlockTicks(m) == BlockTicks(m - 1) + BlockTick(m - 1) && BlockTicks(0) == []
  {
    hide BlockTick;
  }

  lemma NoBlocks(w: World)
    requires w.Valid()
    ensures Runnable([], w.env) && Run(w, []) == w
  {
  }

  lemma QuietPart(e: Env, m: nat, hi: nat)
    requires m >= 1 && 4 * m <= hi && Quiet(e, 4 * (m - 1), hi)
    ensures Quiet(e, 4 * (m - 1), 4 * (m - 1) + 4) && Quiet(e, 4 * (m - 1) + 4, hi)
  {
  }

  /** A group tick on shared pads: every block's resolves, including those that
      ran before later blocks executed, amount to one resolve at the end. */
  lemma GroupTickResolvesOnce(w: World, k: nat)
    requires w.Valid() && |w.env.irq| >= 1 && k < |w.env.pads|
    requires forall b :: 0 <= b < |w.env.irq| ==> w.env.topo.padIx[b] == k
    ensures var n := |w.env.irq|;
            && Runnable(OpenAll(n) + BlockTicks(n), w.env)
            && ResolvedFrom(Run(w, OpenAll(n) + BlockTicks(n)).env, k, w.env.pads[k].levels)
  {
    hide ResolvedFrom, BlockTicks, Run;
    var n, start := |w.env.irq|, w.env.pads[k].levels;
    OpenAllRuns(w, n, 0);
    assert OpenAll(n)[0..] == OpenAll(n);
    var v := Run(w, OpenAll(n));
    BlockTicksOwe(v, n, k, start);
    assert Runnable(BlockTicks(n), w.env);
    RunConcat(w, OpenAll(n), BlockTicks(n));
  }

  /** A resolved pad set, pin by pin. */
  lemma ResolvedPin(e: Env, k: nat, start: Pins, pin: nat, j: nat)
    requires e.Valid() && k < |e.pads| && ResolvedFrom(e, k, start)
    ensures WinsLevel(Claims(e, k), pin, j) ==> (pin in e.pads[k].levels <==> pin in Claims(e, k)[j].val)
    ensures Unwritten(Claims(e, k), pin) ==> (pin in e.pads[k].levels <==> pin in start)
  {
    hide Claims, FoldDirs;
    ResolveLevel(e.pads[k].(levels := start), Claims(e, k), pin, j);
  }

  /** After every tick each pin has the level of its last routed writer of the tick,
      or the level it had before. */
  lemma LevelAfterTick(w: World, b: nat, pin: nat, j: nat)
    requires w.Valid() && b < |w.env.irq|
    ensures Runnable(BlockTick(b), w.env)
    ensures var k, r := w.env.topo.padIx[b], Run(w, BlockTick(b)).env;
            && k < |r.pads|
            && (WinsLevel(Claims(r, k), pin, j) ==> (pin in r.pads[k].levels <==> pin in Claims(r, k)[j].val))
            && (Unwritten(Claims(r, k), pin) ==> (pin in r.pads[k].levels <==> pin in w.env.pads[k].levels))
  {
    hide ResolvedFrom, Run, Claims;
    var k := w.env.topo.padIx[b];
    TickResolvesOnce(w, b);
    ResolvedPin(Run(w, BlockTick(b)).env, k, w.env.pads[k].levels, pin, j);
  }

  /** The same for a group tick on shared pads. */
  lemma LevelAfterGroupTick(w: World, k: nat, pin: nat, j: nat)
    requires w.Valid() && |w.env.irq| >= 1 && k < |w.env.pads|
    requires forall b :: 0 <= b < |w.env.irq| ==> w.env.topo.padIx[b] == k
    ensures var acts := OpenAll(|w.env.irq|) + BlockTicks(|w.env.irq|);
            && Runnable(acts, w.env)
            && var r := Run(w, acts).env;
               && k < |r.pads|
               && (WinsLevel(Claims(r, k), pin, j) ==> (pin in r.pads[k].levels <==> pin in Claims(r, k)[j].val))
               && (Unwritten(Claims(r, k), pin) ==> (pin in r.pads[k].levels <==> pin in w.env.pads[k].levels))
  {
    hide ResolvedFrom, Run, Claims, Runnable, OpenAll, BlockTicks;
    GroupTickResolvesOnce(w, k);
    ResolvedPin(Run(w, OpenAll(|w.env.irq|) + BlockTicks(|w.env.irq|)).env, k, w.env.pads[k].levels, pin, j);
  }
}
