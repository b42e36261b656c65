/** The simulator stepped in place: the per-tick loops over state machines and
    blocks, and the per-pin write loops, refining the engine on values. */
module Simulator {
  import opened Bits
  import opened Pads
  import opened Machine
  import opened Runs
  import TickPads

  // ---- pin write loops ----------------------------------------------------------------

  lemma PhysPinsDiffer(gb: nat, base: nat, i: nat, j: nat)
    requires i < j < 32
    ensures SpanPin(gb, base, i) != SpanPin(gb, base, j)
  {
    RemaindersDiffer(base + i, base + j, 32);
    var a, b := (base + i) % 32, (base + j) % 32;
    RemaindersDiffer(gb + if a < b then a else b, gb + if a < b then b else a, NUM_PINS);
  }

  /** Numbers less than `m` apart have different remainders. */
  lemma RemaindersDiffer(p: nat, q: nat, m: nat)
    requires p < q < p + m
    ensures p % m != q % m
  {
    var a, r, d := p / m, p % m, q - p;
    assert p == a * m + r;
    if r + d < m {
      ModUnique(q, m, a, r + d);
    } else {
      assert (a + 1) * m == a * m + m;
      ModUnique(q, m, a + 1, r + d - m);
    }
  }

  lemma SpanGrows(gb: nat, base: nat, n: nat, v: Word)
    requires n < 32
    ensures Span(gb, base, n + 1) == Span(gb, base, n) + {SpanPin(gb, base, n)}
    ensures SpanOnes(gb, base, n + 1, v) == SpanOnes(gb, base, n, v) + if v[n] then {SpanPin(gb, base, n)} else {}
    ensures SpanPin(gb, base, n) !in Span(gb, base, n) && SpanPin(gb, base, n) !in SpanOnes(gb, base, n, v)
  {
    hide SpanPin;
    forall i: nat | i < n
      ensures SpanPin(gb, base, i) != SpanPin(gb, base, n)
    {
      PhysPinsDiffer(gb, base, i, n);
    }
  }

  /** The loop of drive_pins and drive_pindirs: pin by pin, set or clear the bit and
      record the pin. `level` and `touched` are the register pair it updates. */
  method DriveLoop(gb: nat, base: nat, count: nat, v: Word, level0: Pins, touched0: Pins)
    returns (level: Pins, touched: Pins)
    ensures var n := Clamp32(count);
            && level == (level0 - Span(gb, base, n)) + SpanOnes(gb, base, n, v)
            && touched == touched0 + Span(gb, base, n)
  {
    hide Span, SpanOnes, SpanPin;
    var n := Clamp32(count);
    level, touched := level0, touched0;
    SpanEmpty(gb, base, v);
    for i := 0 to n
      invariant level == (level0 - Span(gb, base, i)) + SpanOnes(gb, base, i, v)
      invariant touched == touched0 + Span(gb, base, i)
    {
      SpanGrows(gb, base, i, v);
      var pin := SpanPin(gb, base, i);
      if v[i] { level := level + {pin}; } else { level := level - {pin}; }
      touched := touched + {pin};
    }
  }

  lemma SpanEmpty(gb: nat, base: nat, v: Word)
    ensures Span(gb, base, 0) == {} && SpanOnes(gb, base, 0, v) == {}
  {
  }

  // ---- ticks ------------------------------------------------------------------------------

  lemma RunSnoc(w: World, acts: seq<Act>, act: Act)
    requires w.Valid() && Runnable(acts, w.env) && Applies(act, w.env)
    ensures Runnable(acts + [act], w.env) && Applies(act, Run(w, acts).env)
    ensures Run(w, acts + [act]) == Do(Run(w, acts), act)
  {
    hide Do;
    ApplicabilityIsShape(act, w.env, Run(w, acts).env);
    TickPads.RunLast(w, act);
    TickPads.RunLast(Run(w, acts), act);
    hide Run, Runnable;
    RunConcat(w, acts, [act]);
  }

  class Simulation {
    var w: World

    constructor (w: World)
      requires w.Valid()
      ensures this.w == w
    {
      this.w := w;
    }

    /** Open the write window of a block. */
    method ClearWrites(b: nat)
      requires w.Valid() && b < |w.env.irq|
      modifies this
      ensures w == World(OpenWindow(old(w.env), b), old(w.flow), old(w.code))
    {
      ghost var e := w.env;
      for s := 0 to 4
        invariant w == World(w.env, old(w.flow), old(w.code)) && SameShape(e, w.env) && w.env.pads == e.pads && w.env.irq == e.irq
        invariant forall g :: 0 <= g < |e.sm| ==> w.env.sm[g] == if 4 * b <= g < 4 * b + s then e.sm[g].(wrote := {}) else e.sm[g]
      {
        var g := 4 * b + s;
        w := w.(env := PutSm(w.env, g, w.env.sm[g].(wrote := {})));
      }
      assert w.env.sm == OpenWindow(e, b).sm;
    }

    /** One state machine's share of the tick. */
    method ClockOne(g: nat)
      requires InWorld(w, g)
      modifies this
      ensures w == Clock(old(w), g)
    {
      hide SmCycle;
      var sm := w.env.sm[g];
      var units := Divider(sm.cfg);
      sm := sm.(clkAccum := sm.clkAccum + 256);
      if sm.clkAccum >= units {
        sm := sm.(clkAccum := sm.clkAccum - units);
        w := WithSm(w, g, sm);
        if sm.enabled {
          w := SmCycle(w, g);
          w := WithSm(w, g, Sticky(w.env.sm[g]));
        }
      } else {
        w := WithSm(w, g, sm);
      }
    }

    /** pio_sim_tick, up to the synchroniser. */
    method TickBlock(b: nat)
      requires w.Valid() && b < |w.env.irq|
      modifies this
      ensures w.Valid() && Runnable(BlockTick(b), old(w.env)) && w == Run(old(w), BlockTick(b))
    {
      hide Do, Run, Runnable, Clock, OpenWindow, ResolvePads;
      ghost var w0 := w;
      TickPads.DoWindow(w0, b);
      TickPads.RunLast(w0, Open(b));
      ClearWrites(b);
      ghost var acts := [Open(b)];
      for s := 0 to 4
        invariant w.Valid() && SameShape(w0.env, w.env) && Runnable(acts, w0.env)
        invariant acts == BlockTick(b)[..1 + s] && w == Run(w0, acts)
      {
        var g := 4 * b + s;
        RunSnoc(w0, acts, ClockSm(g));
        DoClock(w, g);
        ClockOne(g);
        acts := acts + [ClockSm(g)];
        assert acts == BlockTick(b)[..2 + s];
      }
      RunSnoc(w0, acts, Close(b));
      TickPads.DoWindow(w, b);
      w := w.(env := ResolvePads(w.env, w.env.topo.padIx[b]));
      assert acts + [Close(b)] == BlockTick(b);
    }

    /** Open every block's write window. */
    method ClearAll()
      requires w.Valid()
      modifies this
      ensures w.Valid() && SameShape(old(w.env), w.env)
      ensures Runnable(OpenAll(|w.env.irq|), old(w.env)) && w == Run(old(w), OpenAll(|w.env.irq|))
    {
      hide Do, Run, OpenWindow, OpenAll;
      ghost var w0 := w;
      var n := |w.env.irq|;
      OpenNone(w0);
      for b := 0 to n
        invariant w.Valid() && SameShape(w0.env, w.env)
        invariant Runnable(OpenAll(b), w0.env) && w == Run(w0, OpenAll(b))
      {
        RunSnoc(w0, OpenAll(b), Open(b));
        OpenOneMore(b);
        TickPads.DoWindow(w, b);
        ClearWrites(b);
      }
    }

    /** Tick every block in order. */
    method TickBlocks()
      requires w.Valid()
      modifies this
      ensures w.Valid() && SameShape(old(w.env), w.env)
      ensures Runnable(BlockTicks(|w.env.irq|), old(w.env)) && w == Run(old(w), BlockTicks(|w.env.irq|))
    {
      hide Do, Run, Runnable, BlockTick;
      ghost var w0 := w;
      var n := |w.env.irq|;
      TicksNone(w0);
      for b := 0 to n
        invariant w.Valid() && SameShape(w0.env, w.env)
        invariant Runnable(BlockTicks(b), w0.env) && w == Run(w0, BlockTicks(b))
      {
        TickPads.RunBlockTick(w0, b);
        RunConcat(w0, BlockTicks(b), BlockTick(b));
        TickBlock(b);
      }
    }

    /** pio_sim_group_tick of blocks sharing pad set `k`. */
    method TickGroup(k: nat)
      requires w.Valid() && k < |w.env.pads|
      modifies this
      ensures w.Valid()
      ensures Runnable(GroupTick(|old(w.env).irq|, k), old(w.env)) && w == Run(old(w), GroupTick(|old(w.env).irq|, k))
    {
      hide Do, Run, Runnable, BlockTicks, OpenAll;
      ghost var w0, n := w, |w.env.irq|;
      RunnableElsewhere(n, w0.env, w0.env);
      ClearAll();
      RunnableElsewhere(n, w0.env, w.env);
      RunConcat(w0, OpenAll(n), BlockTicks(n));
      TickBlocks();
      RunSnoc(w0, OpenAll(n) + BlockTicks(n), ClockPads(k));
      assert Do(w, ClockPads(k)) == World(w.env.(pads := w.env.pads[k := ClockInputs(w.env.pads[k])]), w.flow, w.code) by {
        DoClockPads(w, k);
      }
      w := w.(env := w.env.(pads := w.env.pads[k := ClockInputs(w.env.pads[k])]));
    }
  }

  lemma DoClockPads(w: World, k: nat)
    requires w.Valid() && k < |w.env.pads|
    ensures Do(w, ClockPads(k)) == World(w.env.(pads := w.env.pads[k := ClockInputs(w.env.pads[k])]), w.flow, w.code)
  {
  }

  lemma OpenNone(w: World)
    requires w.Valid()
    ensures Runnable(OpenAll(0), w.env) && Run(w, OpenAll(0)) == w
  {
  }

  lemma OpenOneMore(b: nat)
    ensures OpenAll(b + 1) == OpenAll(b) + [Open(b)]
  {
  }

  lemma TicksNone(w: World)
    requires w.Valid()
    ensures Runnable(BlockTicks(0), w.env) && Run(w, BlockTicks(0)) == w
  {
  }

  lemma RunnableElsewhere(n: nat, e: Env, r: Env)
    requires e.Valid() && SameShape(e, r) && n == |e.irq|
    ensures Runnable(OpenAll(n), e) && Runnable(BlockTicks(n), e) && Runnable(BlockTicks(n), r)
  {
    BlockTicksRunnable(n, e);
    BlockTicksRunnable(n, r);
  }

  lemma {:induction false} BlockTicksRunnable(n: nat, e: Env)
    requires e.Valid() && n <= |e.irq|
    ensures Runnable(BlockTicks(n), e) && Runnable(OpenAll(n), e)
  {
    if n > 0 {
      BlockTicksRunnable(n - 1, e);
    }
  }
}
