/** Levels in every reachable state: after a step that resolves a pad set, and until
    the next one that runs code or opens a write window, each pin written in the
    window has the level of its last routed writer. */
module PadLevels {
  import opened Bits
  import opened Pads
  import opened Machine
  import opened Runs
  import opened PadResolve
  import opened PadRuns

  /** Every pin with a routed writer in the open window has its last writer's level. */
  ghost predicate Settled(e: Env, k: nat)
    requires e.Valid() && k < |e.pads|
  {
    forall pin: nat, j: nat :: WinsLevel(Claims(e, k), pin, j) ==>
      (pin in e.pads[k].levels <==> pin in Claims(e, k)[j].val)
  }

  predicate SameWrites(a: Sm, b: Sm) {
    b.wrote == a.wrote && b.outVal == a.outVal
  }

  lemma ResolveSettles(e: Env, k: nat)
    requires e.Valid() && k < |e.pads|
    ensures Settled(ResolvePads(e, k), k)
  {
    var r := ResolvePads(e, k);
    assert Claims(r, k) == Claims(e, k);
    hide Resolve, WinsLevel, ResolvePads;
    assert r.pads[k] == Resolve(e.pads[k], Claims(e, k)) by { ResolvedPad(e, k); }
    forall pin: nat, j: nat | WinsLevel(Claims(r, k), pin, j)
      ensures pin in r.pads[k].levels <==> pin in Claims(r, k)[j].val
    {
      ResolveLevel(e.pads[k], Claims(e, k), pin, j);
    }
  }

  lemma ResolvedPad(e: Env, k: nat)
    requires e.Valid() && k < |e.pads|
    ensures ResolvePads(e, k).pads[k] == Resolve(e.pads[k], Claims(e, k))
  {
    hide Resolve, Claims;
  }

  lemma KeptClaim(e: Env, r: Env, k: nat, j: nat)
    requires SameShape(e, r) && k < |e.pads| && k < |r.pads| && r.pads[k].funcMask == e.pads[k].funcMask
    requires j < 4 * |e.topo.owners[k]| && SameWrites(e.sm[Bidder(e, k, j)], r.sm[Bidder(e, k, j)])
    ensures j < |Claims(e, k)| && j < |Claims(r, k)|
    ensures Claims(r, k)[j].written == Claims(e, k)[j].written && Claims(r, k)[j].val == Claims(e, k)[j].val
  {
  }

  lemma SameWinner(a: seq<Claim>, b: seq<Claim>, pin: nat, j: nat)
    requires |a| == |b| && forall i :: 0 <= i < |a| ==> b[i].written == a[i].written
    requires WinsLevel(b, pin, j)
    ensures WinsLevel(a, pin, j)
  {
  }

  /** Levels, routing and the write registers are as they were. */
  lemma KeptSettled(e: Env, r: Env, k: nat)
    requires SameShape(e, r) && k < |e.pads| && k < |r.pads| && Settled(e, k)
    requires r.pads[k].levels == e.pads[k].levels && r.pads[k].funcMask == e.pads[k].funcMask
    requires forall g :: 0 <= g < |e.sm| ==> SameWrites(e.sm[g], r.sm[g])
    ensures Settled(r, k)
  {
    hide Claims, SameWrites, WinsLevel;
    var a, b := Claims(e, k), Claims(r, k);
    forall j | 0 <= j < |a|
      ensures b[j].written == a[j].written && b[j].val == a[j].val
    {
      KeptClaim(e, r, k, j);
    }
    forall pin: nat, j: nat | WinsLevel(b, pin, j)
      ensures j < |b| && (pin in r.pads[k].levels <==> pin in b[j].val)
    {
      SameWinner(a, b, pin, j);
      WinnerInRange(a, pin, j);
    }
  }

  lemma WinnerInRange(a: seq<Claim>, pin: nat, j: nat)
    requires WinsLevel(a, pin, j)
    ensures j < |a|
  {
  }

  /** Another pad set's resolve, after a change that wrote no level. */
  lemma ElsewhereSettled(e: Env, m: Env, x: nat, k: nat)
    requires SameShape(e, m) && x < |m.pads| && k < |e.pads| && k < |m.pads| && x != k && Settled(e, k)
    requires m.pads[k].levels == e.pads[k].levels && m.pads[k].funcMask == e.pads[k].funcMask
    requires forall g :: 0 <= g < |e.sm| ==> SameWrites(e.sm[g], m.sm[g])
    ensures Settled(ResolvePads(m, x), k)
  {
    hide Settled, Resolve, Claims;
    KeptSettled(e, ResolvePads(m, x), k);
  }

  /** The step ends by resolving pad set `k`. */
  predicate Settles(h: HostAct, t: Topo, k: nat) {
    match h
    case Engine(Close(b)) => b < |t.padIx| && t.padIx[b] == k
    case Engine(SetEnabled(g, _)) => g / 4 < |t.padIx| && t.padIx[g / 4] == k
    case Engine(Route(x, _, _)) => x == k
    case SetPindirs(g, _, _, _) => g / 4 < |t.padIx| && t.padIx[g / 4] == k
    case _ => false
  }

  /** The step may change who wrote what without resolving at its end. */
  predicate Disturbs(h: HostAct) {
    match h
    case Engine(act) => act.Open? || act.ClockSm?
    case SetPindirs(_, _, _, _) => false
    case Exec(_, _) => true
  }

  lemma EnableSettled(e: Env, g: nat, sm: Sm, k: nat)
    requires Has(e, g) && k < |e.pads| && SameWrites(e.sm[g], sm) && (k == PadIx(e, g) || Settled(e, k))
    ensures Settled(ResolvePads(PutSm(e, g, sm), PadIx(e, g)), k)
  {
    hide Settled, Resolve, Claims, ResolvePads;
    var m := PutSm(e, g, sm);
    if k == PadIx(e, g) { ResolveSettles(m, k); } else { ElsewhereSettled(e, m, PadIx(e, g), k); }
  }

  lemma RouteSettled(e: Env, x: nat, masks: Routing, away: Pins, k: nat)
    requires e.Valid() && x < |e.pads| && k < |e.pads| && (k == x || Settled(e, k))
    ensures Settled(DoEnv(e, Route(x, masks, away)), k)
  {
    hide Settled, Resolve, Claims, ResolvePads;
    var m := e.(pads := e.pads[x := e.pads[x].(funcMask := masks, periphSel := away)]);
    if k == x { ResolveSettles(m, k); } else { ElsewhereSettled(e, m, x, k); }
  }

  lemma QuietSettled(e: Env, act: Act, k: nat)
    requires e.Valid() && Applies(act, e) && k < |e.pads| && Settled(e, k)
    requires act.Put? || act.Get? || act.ForceIrq? || act.SetPin? || act.ReleasePin? || act.ClockPads?
    ensures var r := DoEnv(e, act); k < |r.pads| && Settled(r, k)
  {
    hide Settled, InputView, ChipDrive;
    KeptSettled(e, DoEnv(e, act), k);
  }

  lemma EngineSettled(e: Env, act: Act, k: nat)
    requires e.Valid() && Applies(act, e) && !act.ClockSm? && !act.Open? && k < |e.pads|
    requires Settles(Engine(act), e.topo, k) || Settled(e, k)
    ensures var r := DoEnv(e, act); k < |r.pads| && Settled(r, k)
  {
    hide Settled, Resolve, Claims, PutWord, GetWord, ResolvePads, ClockInputs;
    match act
    case Close(b) =>
      if k == e.topo.padIx[b] { ResolveSettles(e, k); } else { ElsewhereSettled(e, e, e.topo.padIx[b], k); }
    case SetEnabled(g, on) => EnableSettled(e, g, e.sm[g].(enabled := on), k);
    case Route(x, masks, away) => RouteSettled(e, x, masks, away, k);
    case _ => QuietSettled(e, act, k);
  }

  lemma PindirsSettled(e: Env, g: nat, base: nat, count: nat, v: Word, k: nat)
    requires Has(e, g) && k < |e.pads| && (k == PadIx(e, g) || Settled(e, k))
    ensures var r := DrivePindirs(e, g, base, count, v); k < |r.pads| && Settled(r, k)
  {
    hide Settled, ResolvePads, Span, SpanOnes;
    var sm, n, gb := e.sm[g], Clamp32(count), GpioBase(e, g);
    var s := DrivePindirs(e, g, base, count, v).sm[g];
    EnableSettled(e, g, s, k);
  }

  lemma StepSettled(w: World, h: HostAct, k: nat)
    requires w.Valid() && HostApplies(h, w.env) && k < |w.env.pads|
    requires Settles(h, w.env.topo, k) || (!Disturbs(h) && Settled(w.env, k))
    ensures var r := DoHost(w, h).env; k < |r.pads| && Settled(r, k)
  {
    hide Settled, DoEnv, DrivePindirs, ForceExec;
    match h
    case Engine(act) => EngineSettled(w.env, act, k);
    case SetPindirs(g, base, count, isOut) => PindirsSettled(w.env, g, base, count, if isOut then ONES else ZERO, k);
    case Exec(_, _) =>
  }

  /** Pad set `k` was resolved after the last disturbing step; `was` says whether it
      was settled before the first. */
  function Fresh(hs: seq<HostAct>, t: Topo, k: nat, was: bool): bool
    decreases hs
  {
    if hs == [] then was
    else Fresh(hs[1..], t, k, Settles(hs[0], t, k) || (!Disturbs(hs[0]) && was))
  }

  /** In every reachable state whose pad set was resolved since code last ran, each
      pin with a routed writer in the window has its last writer's level. */
  lemma {:induction false} LevelsInEveryRun(w: World, hs: seq<HostAct>, k: nat, was: bool)
    requires w.Valid() && HostRunnable(hs, w.env) && k < |w.env.pads| && (was ==> Settled(w.env, k))
    ensures var r := HostRun(w, hs).env;
            && k < |r.pads|
            && (Fresh(hs, w.env.topo, k, was) ==> Settled(r, k))
    decreases hs
  {
    hide Settled, DoHost, Settles, Disturbs;
    if hs != [] {
      var now := Settles(hs[0], w.env.topo, k) || (!Disturbs(hs[0]) && was);
      if now { StepSettled(w, hs[0], k); }
      HostTail(hs, w.env, DoHost(w, hs[0]).env);
      LevelsInEveryRun(DoHost(w, hs[0]), hs[1..], k, now);
    }
  }
}
