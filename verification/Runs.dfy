/** Runs of the simulator. A system tick is a fixed list of small acts; the host
    API contributes acts of its own between ticks. Properties of every run are
    proved by induction over act lists. */
module Runs {
  import opened Bits
  import opened Pads
  import opened Machine

  datatype Act =
    | Open(b: nat)                            // start of a tick: clear the write window of block b
    | ClockSm(g: nat)                         // divider, and a cycle when due
    | Close(b: nat)                           // end of a tick: final resolve of block b's pads
    | ClockPads(k: nat)                       // bus keeper and input synchroniser
    | Put(g: nat, word: Word)                 // pio_sim_sm_put
    | Get(g: nat)                             // pio_sim_sm_get
    | SetEnabled(g: nat, on: bool)            // pio_sim_sm_set_enabled
    | ForceIrq(b: nat, flag: nat, on: bool)   // pio_sim_irq_force / irq_clear
    | SetPin(k: nat, pin: nat, level: bool)   // pio_sim_set_pin
    | ReleasePin(k: nat, pin: nat)            // pio_sim_release_pin
    | Route(k: nat, masks: Routing, away: Pins) // a FUNCSEL write: new caches, then a resolve

  /** Acts name existing blocks, state machines, pad sets and flags. */
  predicate Applies(act: Act, e: Env) {
    match act
    case Open(b) => b < |e.irq|
    case ClockSm(g) => g < |e.sm|
    case Close(b) => b < |e.irq|
    case ClockPads(k) => k < |e.pads|
    case Put(g, _) => g < |e.sm|
    case Get(g) => g < |e.sm|
    case SetEnabled(g, _) => g < |e.sm|
    case ForceIrq(b, flag, _) => b < |e.irq| && flag < 8
    case SetPin(k, pin, _) => k < |e.pads| && pin < NUM_PINS
    case ReleasePin(k, pin) => k < |e.pads| && pin < NUM_PINS
    case Route(k, _, _) => k < |e.pads|
  }

  /** Same wiring and sizes. */
  ghost predicate SameShape(e: Env, r: Env) {
    e.Valid() && r.Valid() && r.topo == e.topo && |r.irq| == |e.irq|
  }

  /** Clear the write flags of block `b`'s four state machines. */
  function OpenWindow(e: Env, b: nat): (r: Env)
    requires e.Valid() && b < |e.irq|
    ensures SameShape(e, r) && r.pads == e.pads && r.irq == e.irq
    ensures forall g :: 0 <= g < |e.sm| ==> r.sm[g] == if g / 4 == b then e.sm[g].(wrote := {}) else e.sm[g]
  {
    Env(e.topo, seq(|e.sm|, g requires 0 <= g < |e.sm| =>
                      if g / 4 == b then e.sm[g].(wrote := {}) else e.sm[g]), e.irq, e.pads)
  }

  function PutWord(sm: Sm, word: Word): (r: Sm)
    ensures r == sm.(tx := r.tx, fdebug := r.fdebug)
  {
    if sm.tx.Full() then sm.(fdebug := sm.fdebug.(txOver := true)) else sm.(tx := sm.tx.Push(word).0)
  }

  function GetWord(sm: Sm): (r: Sm)
    ensures r == sm.(rx := r.rx, fdebug := r.fdebug)
  {
    if sm.rx.Empty() then sm.(fdebug := sm.fdebug.(rxUnder := true)) else sm.(rx := sm.rx.Pop().0)
  }

  /** Acts that do not run code. */
  function DoEnv(e: Env, act: Act): (r: Env)
    requires e.Valid() && Applies(act, e) && !act.ClockSm?
    ensures SameShape(e, r)
  {
    match act
    case Open(b) => OpenWindow(e, b)
    case Close(b) => ResolvePads(e, e.topo.padIx[b])
    case ClockPads(k) => e.(pads := e.pads[k := ClockInputs(e.pads[k])])
    case Put(g, word) => PutSm(e, g, PutWord(e.sm[g], word))
    case Get(g) => PutSm(e, g, GetWord(e.sm[g]))
    case SetEnabled(g, on) => ResolvePads(PutSm(e, g, e.sm[g].(enabled := on)), PadIx(e, g))
    case ForceIrq(b, flag, on) => SetIrq(e, b, flag, on)
    case SetPin(k, pin, level) =>
      var p := e.pads[k];
      e.(pads := e.pads[k := p.(extDrive := p.extDrive + {pin},
                                extLevels := if level then p.extLevels + {pin} else p.extLevels - {pin})])
    case Route(k, masks, away) =>
      ResolvePads(e.(pads := e.pads[k := e.pads[k].(funcMask := masks, periphSel := away)]), k)
    case ReleasePin(k, pin) => e.(pads := e.pads[k := e.pads[k].(extDrive := e.pads[k].extDrive - {pin})])
  }

  function Do(w: World, act: Act): (r: World)
    requires w.Valid() && Applies(act, w.env)
    ensures r.Valid() && SameShape(w.env, r.env)
  {
    match act
    case ClockSm(g) => Clock(w, g)
    case _ => World(DoEnv(w.env, act), w.flow, w.code)
  }

  /** Acts that run no code change, of any state machine's record, at most the
      enable flag, the write window, the FIFOs and the debug flags. */
  lemma EnvActFrame(e: Env, act: Act, g: nat)
    requires e.Valid() && Applies(act, e) && !act.ClockSm? && g < |e.sm|
    ensures var s, r := e.sm[g], DoEnv(e, act).sm[g];
            && r == s.(enabled := r.enabled, wrote := r.wrote, tx := r.tx, rx := r.rx, fdebug := r.fdebug)
            && (r.tx != s.tx ==> act.Put? && act.g == g)
            && (r.rx != s.rx ==> act.Get? && act.g == g)
            && r.enabled == (if act.SetEnabled? && act.g == g then act.on else s.enabled)
  {
    hide DoEnv;
    ActOnRecord(e, act, g);
  }

  /** The record an act leaves behind, case by case. */
  lemma ActOnRecord(e: Env, act: Act, g: nat)
    requires e.Valid() && Applies(act, e) && !act.ClockSm? && g < |e.sm|
    ensures var s := e.sm[g];
            DoEnv(e, act).sm[g] ==
              if act.Open? && g / 4 == act.b then s.(wrote := {})
              else if act.Put? && act.g == g then PutWord(s, act.word)
              else if act.Get? && act.g == g then GetWord(s)
              else if act.SetEnabled? && act.g == g then s.(enabled := act.on)
              else s
  {
    hide ResolvePads, PutWord, GetWord, OpenWindow;
  }

  /** Running never rewrites instruction memory. */
  lemma CycleKeepsCode(w: World, g: nat)
    requires InWorld(w, g)
    ensures forall b :: 0 <= b < |w.code| ==> SmCycle(w, g).code[b].insn == w.code[b].insn
  {
    hide ExecOne, Autopull, CountFetch;
  }

  lemma DoKeepsCode(w: World, act: Act, b: nat)
    requires w.Valid() && Applies(act, w.env) && b < |w.code|
    ensures Do(w, act).code[b].insn == w.code[b].insn
  {
    hide SmCycle, DoEnv;
    if act.ClockSm? {
      CycleKeepsCode(WithSm(w, act.g, Ticked(w.env.sm[act.g])), act.g);
    }
  }

  lemma DoClock(w: World, g: nat)
    requires InWorld(w, g)
    ensures Do(w, ClockSm(g)) == Clock(w, g)
  {
  }

  /** A clock of one state machine leaves the others' program counters alone. */
  lemma OtherFlow(w: World, h: nat, g: nat)
    requires InWorld(w, h) && g < |w.env.sm| && h != g
    ensures Clock(w, h).flow[g] == w.flow[g]
  {
    hide ExecOne, Autopull, CountFetch;
  }

  /** A clock that does not run a cycle only advances the divider. */
  lemma IdleClock(w: World, g: nat)
    requires InWorld(w, g) && !(Due(w.env.sm[g]) && w.env.sm[g].enabled)
    ensures Clock(w, g) == WithSm(w, g, Ticked(w.env.sm[g]))
  {
    hide CycleAndStick;
  }

  /** Every act of the list can be done in a world of this shape. */
  predicate Runnable(acts: seq<Act>, e: Env) {
    forall i :: 0 <= i < |acts| ==> Applies(acts[i], e)
  }

  lemma ApplicabilityIsShape(act: Act, e: Env, r: Env)
    requires SameShape(e, r) && Applies(act, e)
    ensures Applies(act, r)
  {
  }

  function Run(w: World, acts: seq<Act>): (r: World)
    requires w.Valid() && Runnable(acts, w.env)
    ensures r.Valid() && SameShape(w.env, r.env)
    decreases acts
  {
    if acts == [] then w
    else
      RunnableTail(acts, w.env, Do(w, acts[0]).env);
      Run(Do(w, acts[0]), acts[1..])
  }

  lemma RunnableTail(acts: seq<Act>, e: Env, r: Env)
    requires acts != [] && Runnable(acts, e) && SameShape(e, r)
    ensures Runnable(acts[1..], r)
  {
  }

  lemma RunCons(w: World, act: Act, rest: seq<Act>)
    requires w.Valid() && Applies(act, w.env) && Runnable(rest, w.env)
    ensures Runnable([act] + rest, w.env) && Runnable(rest, Do(w, act).env)
    ensures Run(w, [act] + rest) == Run(Do(w, act), rest)
  {
    hide Do;
    var acts := [act] + rest;
    assert acts[0] == act && acts[1..] == rest;
    RunnableTail(acts, w.env, Do(w, act).env);
  }

  lemma RunnableConcat(a: seq<Act>, b: seq<Act>, e: Env)
    requires Runnable(a, e) && Runnable(b, e)
    ensures Runnable(a + b, e)
  {
    hide Applies;
  }

  lemma RunnableInShape(acts: seq<Act>, e: Env, r: Env)
    requires Runnable(acts, e) && SameShape(e, r)
    ensures Runnable(acts, r)
  {
    forall i | 0 <= i < |acts|
      ensures Applies(acts[i], r)
    {
      ApplicabilityIsShape(acts[i], e, r);
    }
  }

  lemma {:induction false} RunConcat(w: World, a: seq<Act>, b: seq<Act>)
    requires w.Valid() && Runnable(a, w.env) && Runnable(b, w.env)
    ensures Runnable(a + b, w.env) && Runnable(b, Run(w, a).env)
    ensures Run(w, a + b) == Run(Run(w, a), b)
    decreases a
  {
    hide Do;
    RunnableConcat(a, b, w.env);
    if a == [] {
      assert a + b == b;
    } else {
      var w' := Do(w, a[0]);
      RunnableTail(a, w.env, w'.env);
      RunnableInShape(b, w.env, w'.env);
      assert (a + b)[0] == a[0] && (a + b)[1..] == a[1..] + b;
      hide Runnable;
      RunConcat(w', a[1..], b);
    }
  }

  // ---- ticks -----------------------------------------------------------------

  /** pio_sim_tick of block `b`, without the synchroniser clock. */
  function BlockTick(b: nat): seq<Act> {
    [Open(b), ClockSm(4 * b), ClockSm(4 * b + 1), ClockSm(4 * b + 2), ClockSm(4 * b + 3), Close(b)]
  }

  function OpenAll(n: nat): seq<Act> {
    seq(n, i requires 0 <= i < n => Open(i))
  }

  function BlockTicks(n: nat): seq<Act> {
    if n == 0 then [] else BlockTicks(n - 1) + BlockTick(n - 1)
  }

  /** pio_sim_group_tick of `n` blocks sharing pad set `k`. */
  function GroupTick(n: nat, k: nat): seq<Act> {
    OpenAll(n) + BlockTicks(n) + [ClockPads(k)]
  }
}
