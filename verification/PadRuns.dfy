/** Directions in every reachable state: each pad's direction is always the one
    arbitration gives the current registers and routing. */
module PadRuns {
  import opened Bits
  import opened Isa
  import opened Pads
  import opened Machine
  import opened Runs
  import opened PadResolve

  /** The directions of pad set `k` are what a resolve would give now. */
  ghost predicate Current(e: Env, k: nat)
    requires e.Valid() && k < |e.pads|
  {
    e.pads[k].dirs == Resolve(e.pads[k], Claims(e, k)).dirs
  }

  /** Every owner of a pad set samples and drives that pad set. */
  ghost predicate OwnersMatch(t: Topo) {
    forall k, o :: 0 <= k < |t.owners| && 0 <= o < |t.owners[k]| ==>
      t.owners[k][o] < |t.padIx| && t.padIx[t.owners[k][o]] == k
  }

  /** Claims that agree on enable, driven pins and directions. */
  ghost predicate SameBids(a: seq<Claim>, b: seq<Claim>) {
    |a| == |b| && forall j :: 0 <= j < |a| ==>
      b[j].enabled == a[j].enabled && b[j].driven == a[j].driven && b[j].oe == a[j].oe
  }

  lemma {:induction false} FoldSameBids(a: seq<Claim>, b: seq<Claim>, x: Pins, pass: bool)
    requires SameBids(a, b)
    ensures FoldDirs(a, x, pass) == FoldDirs(b, x, pass)
    decreases |a|
  {
    if a != [] { FoldSameBids(a[..|a| - 1], b[..|b| - 1], x, pass); }
  }

  lemma SameBidsResolve(p: Pads, q: Pads, a: seq<Claim>, b: seq<Claim>)
    requires SameBids(a, b)
    ensures Resolve(p, a).dirs == Resolve(q, b).dirs
  {
    hide FoldDirs, FoldLevels;
    FoldSameBids(a, b, {}, false);
    FoldSameBids(a, b, FoldDirs(a, {}, false), true);
  }

  /** Pad set `k` and the direction registers of its owners are as they were. */
  lemma UntouchedCurrent(e: Env, r: Env, k: nat)
    requires SameShape(e, r) && k < |e.pads| && k < |r.pads| && Current(e, k)
    requires r.pads[k].dirs == e.pads[k].dirs && r.pads[k].funcMask == e.pads[k].funcMask
    requires forall j :: 0 <= j < 4 * |e.topo.owners[k]| ==> SameDirs(e.sm[Bidder(e, k, j)], r.sm[Bidder(e, k, j)])
    ensures Current(r, k)
  {
    hide Resolve;
    assert SameBids(Claims(e, k), Claims(r, k)) by {
      forall j | 0 <= j < 4 * |e.topo.owners[k]|
        ensures Claims(r, k)[j].enabled == Claims(e, k)[j].enabled
        ensures Claims(r, k)[j].driven == Claims(e, k)[j].driven && Claims(r, k)[j].oe == Claims(e, k)[j].oe
      {
        assert SameDirs(e.sm[Bidder(e, k, j)], r.sm[Bidder(e, k, j)]);
      }
    }
    SameBidsResolve(e.pads[k], r.pads[k], Claims(e, k), Claims(r, k));
  }

  /** The state machine behind claim `j` of pad set `k`. */
  function Bidder(e: Env, k: nat, j: nat): (g: nat)
    requires e.Valid() && k < |e.pads| && j < 4 * |e.topo.owners[k]|
    ensures g < |e.sm|
  {
    4 * e.topo.owners[k][j / 4] + j % 4
  }

  /** A bidder for another pad set is another state machine. */
  lemma BidderElsewhere(e: Env, g: nat, k: nat, j: nat)
    requires Has(e, g) && OwnersMatch(e.topo) && k < |e.pads| && k != PadIx(e, g) && j < 4 * |e.topo.owners[k]|
    ensures Bidder(e, k, j) != g
  {
    var o := e.topo.owners[k][j / 4];
    assert e.topo.padIx[o] == k;
    Pair(j % 4, o, 4);
  }

  /** A resolve makes its pad set current. */
  lemma ResolveCurrent(e: Env, k: nat)
    requires e.Valid() && k < |e.pads|
    ensures Current(ResolvePads(e, k), k)
  {
    var r := ResolvePads(e, k);
    assert SameBids(Claims(e, k), Claims(r, k));
    SameBidsResolve(e.pads[k], r.pads[k], Claims(e, k), Claims(r, k));
    hide FoldDirs, FoldLevels;
  }

  /** A step of `g` that re-resolves whenever it drives directions anew. */
  lemma StepCurrent(e: Env, r: Env, g: nat, k: nat)
    requires StepBy(e, r, g) && Repads(e, r, g) && OwnersMatch(e.topo) && k < |e.pads| && Current(e, k)
    requires r.sm[g].enabled == e.sm[g].enabled
    ensures k < |r.pads| && Current(r, k)
  {
    hide Resolve, Claims, Current;
    if r.pads == e.pads && SameDirs(e.sm[g], r.sm[g]) {
      UntouchedCurrent(e, r, k);
    } else {
      var m := PutSm(e, g, r.sm[g]);
      if k == PadIx(e, g) {
        ResolveCurrent(m, k);
        assert r == ResolvePads(m, k).(irq := r.irq);
        IrqIrrelevant(ResolvePads(m, k), r, k);
      } else {
        forall j | 0 <= j < 4 * |e.topo.owners[k]|
          ensures SameDirs(e.sm[Bidder(e, k, j)], r.sm[Bidder(e, k, j)])
        {
          BidderElsewhere(e, g, k, j);
        }
        UntouchedCurrent(e, r, k);
      }
    }
  }

  lemma IrqIrrelevant(e: Env, r: Env, k: nat)
    requires SameShape(e, r) && r == e.(irq := r.irq) && k < |e.pads| && Current(e, k)
    ensures Current(r, k)
  {
    hide Resolve;
    assert Claims(r, k) == Claims(e, k);
  }

  /** Bookkeeping on `g` that touches neither pads nor direction registers. */
  lemma PutCurrent(e: Env, g: nat, sm: Sm, k: nat)
    requires Has(e, g) && k < |e.pads| && SameDirs(e.sm[g], sm) && Current(e, k)
    ensures Current(PutSm(e, g, sm), k)
  {
    hide Resolve, Claims, Current;
    UntouchedCurrent(e, PutSm(e, g, sm), k);
  }

  lemma PresentCurrent(w: World, g: nat, insn: Insn, fromExec: bool, k: nat)
    requires InWorld(w, g) && OwnersMatch(w.env.topo) && k < |w.env.pads| && Current(w.env, k)
    ensures var r := PresentInsn(w, g, insn, fromExec).env; k < |r.pads| && Current(r, k)
  {
    hide Current, ExecOp, ApplySide, Decode, DelaySideOf, RetireFlow, CountFetch;
    var r := ExecOp(w.env, g, Decode(insn));
    StepCurrent(w.env, r.env, g, k);
    var e := ApplySide(r.env, g, DelaySideOf(w.env.sm[g].cfg, insn));
    StepCurrent(r.env, e, g, k);
    PutCurrent(e, g, Retire(e.sm[g], r.stalled, fromExec, DelaySideOf(w.env.sm[g].cfg, insn).delay), k);
  }

  lemma CycleCurrent(w: World, g: nat, k: nat)
    requires InWorld(w, g) && OwnersMatch(w.env.topo) && k < |w.env.pads| && Current(w.env, k)
    ensures var r := SmCycle(w, g).env; k < |r.pads| && Current(r, k)
  {
    hide Current, PresentInsn;
    var sm := Autopull(w.env.sm[g]);
    PutCurrent(w.env, g, sm, k);
    if sm.delay > 0 {
      PutCurrent(w.env, g, sm.(delay := sm.delay - 1), k);
    } else {
      var w1 := WithSm(w, g, sm);
      PresentCurrent(w1, g, Presented(w1, g), sm.execPending, k);
    }
  }

  lemma ClockCurrent(w: World, g: nat, k: nat)
    requires InWorld(w, g) && OwnersMatch(w.env.topo) && k < |w.env.pads| && Current(w.env, k)
    ensures var r := Clock(w, g).env; k < |r.pads| && Current(r, k)
  {
    hide Current, SmCycle;
    PutCurrent(w.env, g, Ticked(w.env.sm[g]), k);
    if Due(w.env.sm[g]) && w.env.sm[g].enabled {
      var w1 := WithSm(w, g, Ticked(w.env.sm[g]));
      CycleCurrent(w1, g, k);
      PutCurrent(SmCycle(w1, g).env, g, Sticky(SmCycle(w1, g).env.sm[g]), k);
    }
  }

  /** A new enable flag or routing, and the resolve that follows. */
  lemma EnableCurrent(e: Env, g: nat, on: bool, k: nat)
    requires Has(e, g) && OwnersMatch(e.topo) && k < |e.pads| && Current(e, k)
    ensures Current(ResolvePads(PutSm(e, g, e.sm[g].(enabled := on)), PadIx(e, g)), k)
  {
    hide Current, Resolve, Claims;
    var m := PutSm(e, g, e.sm[g].(enabled := on));
    if k == PadIx(e, g) {
      ResolveCurrent(m, k);
    } else {
      forall j | 0 <= j < 4 * |e.topo.owners[k]|
        ensures SameDirs(e.sm[Bidder(e, k, j)], m.sm[Bidder(e, k, j)])
      {
        BidderElsewhere(e, g, k, j);
      }
      UntouchedCurrent(e, ResolvePads(m, PadIx(e, g)), k);
    }
  }

  lemma RouteCurrent(e: Env, x: nat, masks: Routing, away: Pins, k: nat)
    requires e.Valid() && x < |e.pads| && k < |e.pads| && Current(e, k)
    ensures Current(DoEnv(e, Route(x, masks, away)), k)
  {
    hide Current, Resolve, Claims;
    var m := e.(pads := e.pads[x := e.pads[x].(funcMask := masks, periphSel := away)]);
    if k == x { ResolveCurrent(m, k); } else { UntouchedCurrent(e, ResolvePads(m, x), k); }
  }

  /** Every act other than running code. */
  lemma EnvActCurrent(e: Env, act: Act, k: nat)
    requires e.Valid() && Applies(act, e) && !act.ClockSm? && OwnersMatch(e.topo) && k < |e.pads| && Current(e, k)
    ensures var r := DoEnv(e, act); k < |r.pads| && Current(r, k)
  {
    hide Current, Resolve, Claims, PutWord, GetWord, ResolvePads, ClockInputs;
    match act
    case Close(b) =>
      if k == e.topo.padIx[b] { ResolveCurrent(e, k); } else { CloseElsewhere(e, e.topo.padIx[b], k); }
    case SetEnabled(g, on) => EnableCurrent(e, g, on, k);
    case Route(x, masks, away) => RouteCurrent(e, x, masks, away, k);
    case Open(b) => OpenCurrent(e, b, k);
    case Put(g, word) => PutCurrent(e, g, PutWord(e.sm[g], word), k);
    case Get(g) => PutCurrent(e, g, GetWord(e.sm[g]), k);
    case _ => HostCurrent(e, act, k);
  }

  lemma CloseElsewhere(e: Env, x: nat, k: nat)
    requires e.Valid() && x < |e.pads| && k < |e.pads| && x != k && Current(e, k)
    ensures Current(ResolvePads(e, x), k)
  {
    hide Current, Resolve, Claims;
    UntouchedCurrent(e, ResolvePads(e, x), k);
  }

  lemma OpenCurrent(e: Env, b: nat, k: nat)
    requires e.Valid() && b < |e.irq| && k < |e.pads| && Current(e, k)
    ensures Current(OpenWindow(e, b), k)
  {
    hide Current, Resolve, Claims;
    UntouchedCurrent(e, OpenWindow(e, b), k);
  }

  lemma HostCurrent(e: Env, act: Act, k: nat)
    requires e.Valid() && Applies(act, e) && k < |e.pads| && Current(e, k)
    requires act.ForceIrq? || act.SetPin? || act.ReleasePin? || act.ClockPads?
    ensures var r := DoEnv(e, act); k < |r.pads| && Current(r, k)
  {
    hide Current, Resolve, Claims, InputView, ChipDrive;
    UntouchedCurrent(e, DoEnv(e, act), k);
  }

  lemma ActCurrent(w: World, act: Act, k: nat)
    requires w.Valid() && Applies(act, w.env) && OwnersMatch(w.env.topo) && k < |w.env.pads| && Current(w.env, k)
    ensures var r := Do(w, act).env; k < |r.pads| && Current(r, k)
  {
    hide Current, Clock, DoEnv, OwnersMatch;
    if act.ClockSm? { ClockCurrent(w, act.g, k); } else { EnvActCurrent(w.env, act, k); }
  }

  // ---- host writes -----------------------------------------------------------------------

  /** Acts of a tick, and the two host calls that write pins outside one. */
  datatype HostAct =
    | Engine(act: Act)
    | SetPindirs(g: nat, base: nat, count: nat, isOut: bool)   // pio_sim_sm_set_consecutive_pindirs
    | Exec(g: nat, insn: Insn)                                 // pio_sim_sm_exec

  predicate HostApplies(h: HostAct, e: Env) {
    match h
    case Engine(act) => Applies(act, e)
    case SetPindirs(g, _, _, _) => g < |e.sm|
    case Exec(g, _) => g < |e.sm|
  }

  /** A forced instruction: a fresh presentation whose delay is ignored; a stall
      latches it as the pending injection. */
  function ForceExec(w: World, g: nat, insn: Insn): (r: World)
    requires InWorld(w, g)
    ensures r.Valid() && SameShape(w.env, r.env)
  {
    var s := ExecOne(PutSm(w.env, g, w.env.sm[g].(stalled := false)), g, insn);
    var sm := s.env.sm[g];
    if s.stalled then
      World(PutSm(s.env, g, sm.(execPending := true, execInsn := insn, stalled := true)), w.flow, w.code)
    else World(s.env, if s.jump.Some? then w.flow[g := w.flow[g].(pc := s.jump.value)] else w.flow, w.code)
  }

  function DoHost(w: World, h: HostAct): (r: World)
    requires w.Valid() && HostApplies(h, w.env)
    ensures r.Valid() && SameShape(w.env, r.env)
  {
    match h
    case Engine(act) => Do(w, act)
    case SetPindirs(g, base, count, isOut) =>
      World(DrivePindirs(w.env, g, base, count, if isOut then ONES else ZERO), w.flow, w.code)
    case Exec(g, insn) => ForceExec(w, g, insn)
  }

  lemma ExecOneCurrent(e: Env, g: nat, insn: Insn, k: nat)
    requires Has(e, g) && OwnersMatch(e.topo) && k < |e.pads| && Current(e, k)
    ensures var r := ExecOne(e, g, insn).env; k < |r.pads| && Current(r, k)
  {
    hide Current, ExecOp, ApplySide, Decode, DelaySideOf;
    var r := ExecOp(e, g, Decode(insn));
    StepCurrent(e, r.env, g, k);
    StepCurrent(r.env, ApplySide(r.env, g, DelaySideOf(e.sm[g].cfg, insn)), g, k);
  }

  lemma ForceCurrent(w: World, g: nat, insn: Insn, k: nat)
    requires InWorld(w, g) && OwnersMatch(w.env.topo) && k < |w.env.pads| && Current(w.env, k)
    ensures var r := ForceExec(w, g, insn).env; k < |r.pads| && Current(r, k)
  {
    hide Current, ExecOne, OwnersMatch;
    var e := PutSm(w.env, g, w.env.sm[g].(stalled := false));
    PutCurrent(w.env, g, w.env.sm[g].(stalled := false), k);
    ExecOneCurrent(e, g, insn, k);
    var s := ExecOne(e, g, insn);
    PutCurrent(s.env, g, s.env.sm[g].(execPending := true, execInsn := insn, stalled := true), k);
  }

  lemma HostStepCurrent(w: World, h: HostAct, k: nat)
    requires w.Valid() && HostApplies(h, w.env) && OwnersMatch(w.env.topo) && k < |w.env.pads| && Current(w.env, k)
    ensures var r := DoHost(w, h).env; k < |r.pads| && Current(r, k)
  {
    hide Current, Do, ForceExec, DrivePindirs, OwnersMatch;
    match h
    case Engine(act) => ActCurrent(w, act, k);
    case SetPindirs(g, base, count, isOut) =>
      StepCurrent(w.env, DrivePindirs(w.env, g, base, count, if isOut then ONES else ZERO), g, k);
    case Exec(g, insn) => ForceCurrent(w, g, insn, k);
  }

  predicate HostRunnable(hs: seq<HostAct>, e: Env) {
    forall i :: 0 <= i < |hs| ==> HostApplies(hs[i], e)
  }

  lemma HostTail(hs: seq<HostAct>, e: Env, r: Env)
    requires hs != [] && HostRunnable(hs, e) && SameShape(e, r)
    ensures HostRunnable(hs[1..], r)
  {
    forall i | 0 <= i < |hs[1..]|
      ensures HostApplies(hs[1..][i], r)
    {
      assert HostApplies(hs[i + 1], e);
      if hs[i + 1].Engine? { ApplicabilityIsShape(hs[i + 1].act, e, r); }
    }
  }

  function HostRun(w: World, hs: seq<HostAct>): (r: World)
    requires w.Valid() && HostRunnable(hs, w.env)
    ensures r.Valid() && SameShape(w.env, r.env)
    decreases hs
  {
    if hs == [] then w
    else
      HostTail(hs, w.env, DoHost(w, hs[0]).env);
      HostRun(DoHost(w, hs[0]), hs[1..])
  }

  /** In every reachable state, host pindir writes and forced instructions included,
      the directions are the arbitration's. */
  lemma {:induction false} RunsStayCurrent(w: World, hs: seq<HostAct>, k: nat)
    requires w.Valid() && HostRunnable(hs, w.env) && OwnersMatch(w.env.topo) && k < |w.env.pads| && Current(w.env, k)
    ensures var r := HostRun(w, hs).env; k < |r.pads| && Current(r, k)
    decreases hs
  {
    hide Current, DoHost, OwnersMatch;
    if hs != [] {
      HostStepCurrent(w, hs[0], k);
      HostTail(hs, w.env, DoHost(w, hs[0]).env);
      RunsStayCurrent(DoHost(w, hs[0]), hs[1..], k);
    }
  }

  /** Pin by pin: in every reachable state the greatest claimant under (enabled,
      owner slot, state-machine number) decides, and an unclaimed pin is an input. */
  lemma DirectionInEveryRun(w: World, hs: seq<HostAct>, k: nat, pin: nat, j: nat)
    requires w.Valid() && HostRunnable(hs, w.env) && OwnersMatch(w.env.topo) && k < |w.env.pads| && Current(w.env, k)
    ensures var r := HostRun(w, hs).env;
            && k < |r.pads|
            && (WinsDirection(Claims(r, k), pin, j) ==> (pin in r.pads[k].dirs <==> pin in Claims(r, k)[j].oe))
            && (Unclaimed(Claims(r, k), pin) ==> pin !in r.pads[k].dirs)
  {
    RunsStayCurrent(w, hs, k);
    var r := HostRun(w, hs).env;
    hide HostRun, Claims;
    if WinsDirection(Claims(r, k), pin, j) { ResolveDirection(r.pads[k], Claims(r, k), pin, j); }
    if Unclaimed(Claims(r, k), pin) { ResolveUnclaimed(r.pads[k], Claims(r, k), pin); }
  }
}
