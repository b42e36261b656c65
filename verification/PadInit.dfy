/** Initialising a state machine clears its enable flag without resolving the pads:
    exactly when the directions are still the arbitration's afterwards. */
module PadInit {
  import opened Options
  import opened Bits
  import opened FifoRing
  import opened Pads
  import opened Machine
  import opened PadResolve
  import opened PadRuns

  /** The FIFO capacities of a join mode: TX, then RX. */
  function Capacities(join: Join): (r: (nat, nat))
    ensures r.0 <= FIFO_MAX && r.1 <= FIFO_MAX
  {
    match join
    case JoinTx => (FIFO_MAX, 0)
    case JoinRx => (0, FIFO_MAX)
    case _ => (FIFO_DEPTH, FIFO_DEPTH)
  }

  function Emptied(f: Ring8, cap: nat): (r: Ring8)
    requires cap <= FIFO_MAX
    ensures r.Contents() == [] && r.cap == cap
  {
    f.(head := 0, tail := 0, count := 0, cap := cap)
  }

  /** pio_sim_sm_init on the record: a new configuration, fresh execution state, and
      the enable flag down. Output registers and FDEBUG stay. */
  function InitSm(sm: Sm, cfg: SmConfig): Sm {
    sm.(cfg := cfg, tx := Emptied(sm.tx, Capacities(cfg.join).0), rx := Emptied(sm.rx, Capacities(cfg.join).1),
        x := ZERO, y := ZERO, osr := ZERO, isr := ZERO, osrCount := 32, isrCount := 0,
        delay := 0, stalled := false, execPending := false, execInsn := 0, clkAccum := 0,
        statusOverride := false, enabled := false)
  }

  function Init(w: World, g: nat, pc: nat, bottom: nat, top: nat, cfg: SmConfig): (r: World)
    requires InWorld(w, g)
    ensures InWorld(r, g) && r.env.pads == w.env.pads
  {
    World(PutSm(w.env, g, InitSm(w.env.sm[g], cfg)), w.flow[g := Flow(pc % 32, bottom, top)], w.code)
  }

  /** Only the enable flag of the machine's own claims moves. */
  lemma InitClaims(e: Env, g: nat, cfg: SmConfig, k: nat, j: nat)
    requires Has(e, g) && k < |e.pads| && j < 4 * |e.topo.owners[k]|
    ensures j < |Claims(e, k)|
    ensures Claims(PutSm(e, g, InitSm(e.sm[g], cfg)), k)[j] ==
            if Bidder(e, k, j) == g then Claims(e, k)[j].(enabled := false) else Claims(e, k)[j]
  {
    hide Emptied, Capacities;
  }

  /** Every pin's winner before and after hands over to the same direction. */
  ghost predicate HandsOver(before: seq<Claim>, after: seq<Claim>) {
    forall pin: nat, i: nat, j: nat :: WinsDirection(before, pin, i) && WinsDirection(after, pin, j) ==>
      (pin in before[i].oe <==> pin in after[j].oe)
  }

  /** Two sets of claims driving the same pins resolve alike iff each pin's winner
      hands over. */
  lemma ResolveAlikeIff(p: Pads, a: seq<Claim>, b: seq<Claim>)
    requires |a| == |b| && forall j :: 0 <= j < |a| ==> b[j].driven == a[j].driven
    ensures Resolve(p, a).dirs == Resolve(p, b).dirs <==> HandsOver(a, b)
  {
    hide Resolve, WinsDirection;
    var x, y := Resolve(p, a).dirs, Resolve(p, b).dirs;
    if x == y {
      forall pin: nat, i: nat, j: nat | WinsDirection(a, pin, i) && WinsDirection(b, pin, j)
        ensures i < |a| && j < |b| && (pin in a[i].oe <==> pin in b[j].oe)
      {
        WinnerInRange(a, pin, i);
        WinnerInRange(b, pin, j);
        ResolveDirection(p, a, pin, i);
        ResolveDirection(p, b, pin, j);
      }
    }
    if HandsOver(a, b) {
      forall pin: nat
        ensures pin in x <==> pin in y
      {
        SamePin(p, a, b, pin);
      }
    }
  }

  lemma WinnerInRange(cs: seq<Claim>, pin: nat, j: nat)
    requires WinsDirection(cs, pin, j)
    ensures j < |cs|
  {
  }

  lemma SameUnclaimed(a: seq<Claim>, b: seq<Claim>, pin: nat)
    requires |a| == |b| && forall j :: 0 <= j < |a| ==> b[j].driven == a[j].driven
    ensures Unclaimed(a, pin) <==> Unclaimed(b, pin)
  {
  }

  lemma SamePin(p: Pads, a: seq<Claim>, b: seq<Claim>, pin: nat)
    requires |a| == |b| && (forall j :: 0 <= j < |a| ==> b[j].driven == a[j].driven) && HandsOver(a, b)
    ensures pin in Resolve(p, a).dirs <==> pin in Resolve(p, b).dirs
  {
    SameUnclaimed(a, b, pin);
    hide Resolve, Unclaimed, WinsDirection;
    if Unclaimed(a, pin) {
      ResolveUnclaimed(p, a, pin);
      ResolveUnclaimed(p, b, pin);
    } else {
      DirectionDecided(a, pin);
      DirectionDecided(b, pin);
      var i: nat :| WinsDirection(a, pin, i);
      var j: nat :| WinsDirection(b, pin, j);
      WinnerInRange(a, pin, i);
      WinnerInRange(b, pin, j);
      ResolveDirection(p, a, pin, i);
      ResolveDirection(p, b, pin, j);
    }
  }

  /** Directions are current after an initialisation iff every pin the machine held as
      an enabled claimant passes to a claimant of the same direction. */
  lemma InitCurrentIff(w: World, g: nat, pc: nat, bottom: nat, top: nat, cfg: SmConfig, k: nat)
    requires InWorld(w, g) && k < |w.env.pads| && Current(w.env, k)
    ensures var r := Init(w, g, pc, bottom, top, cfg).env;
            Current(r, k) <==> HandsOver(Claims(w.env, k), Claims(r, k))
  {
    hide Resolve, HandsOver, InitSm, Claims;
    var e, r := w.env, Init(w, g, pc, bottom, top, cfg).env;
    forall j | 0 <= j < |Claims(e, k)|
      ensures Claims(r, k)[j].driven == Claims(e, k)[j].driven
    {
      InitClaims(e, g, cfg, k, j);
    }
    ResolveAlikeIff(e.pads[k], Claims(e, k), Claims(r, k));
  }

  /** In particular when the machine was disabled, or drives no routed direction. */
  lemma InitSafe(w: World, g: nat, pc: nat, bottom: nat, top: nat, cfg: SmConfig, k: nat)
    requires InWorld(w, g) && k < |w.env.pads| && Current(w.env, k)
    requires !w.env.sm[g].enabled || forall j :: 0 <= j < |Claims(w.env, k)| && Bidder(w.env, k, j) == g ==> Claims(w.env, k)[j].driven == {}
    ensures Current(Init(w, g, pc, bottom, top, cfg).env, k)
  {
    hide Resolve, InitSm, Current;
    var e, r := w.env, Init(w, g, pc, bottom, top, cfg).env;
    var a, b := Claims(e, k), Claims(r, k);
    forall j | 0 <= j < |a|
      ensures b[j] == a[j] || (a[j].driven == {} && b[j] == a[j].(enabled := false))
    {
      InitClaims(e, g, cfg, k, j);
    }
    hide Claims;
    forall pin: nat, i: nat, j: nat | WinsDirection(a, pin, i) && WinsDirection(b, pin, j)
      ensures pin in a[i].oe <==> pin in b[j].oe
    {
      SameRanking(a, b, pin, i, j);
    }
    InitCurrentIff(w, g, pc, bottom, top, cfg, k);
  }

  lemma SameRanking(a: seq<Claim>, b: seq<Claim>, pin: nat, i: nat, j: nat)
    requires |a| == |b| && WinsDirection(a, pin, i) && WinsDirection(b, pin, j)
    requires forall x :: 0 <= x < |a| ==> b[x] == a[x] || (a[x].driven == {} && b[x] == a[x].(enabled := false))
    ensures i == j && b[j] == a[j]
  {
    assert b[i] == a[i] && b[j] == a[j];
  }

  // ---- where they do not stay current -------------------------------------------------------

  function IdleSm(): Sm {
    Sm(false,
       SmConfig(0, 0, 0, 0, 0, 0, 0, 0, false, false, 0, Right, Right, false, false, 32, 32, 1, 0, JoinNone, TxLevel, 0, false, false, 0),
       ZERO, ZERO, ZERO, ZERO, 32, 0, {}, {}, {}, {}, false, ZERO, 0, 0, false, false, 0,
       Fdebug(false, false, false, false), Fifo(seq(8, _ => ZERO), 0, 0, 0, 4), Fifo(seq(8, _ => ZERO), 0, 0, 0, 4))
  }

  /** One block: machine 0 is enabled and drives GPIO 0 as an output, machine 1 is
      disabled and claims it as an input. */
  function Contested(): (w: World)
    ensures InWorld(w, 0) && |w.env.pads| == 1
  {
    var none := Override({}, {}, {});
    var p := Pads({}, {0}, {}, {}, {}, {}, {}, {}, {}, {}, {}, {}, {}, {}, {}, [{0}, {}, {}], {}, {}, {}, none, none, none);
    var sm := IdleSm();
    World(Env(Topo([None], [None], [0], [0], [[0]]),
              [sm.(enabled := true, dirDriven := {0}, outOe := {0}), sm.(dirDriven := {0}), sm, sm], [{}], [p]),
          [Flow(0, 0, 31), Flow(0, 0, 31), Flow(0, 0, 31), Flow(0, 0, 31)],
          [Code(seq(32, _ => 0), Zeros(32), 0)])
  }

  function Bids(on: bool): seq<Claim> {
    [Claim(on, {}, {0}, {}, {0}), Claim(false, {}, {0}, {}, {}), Claim(false, {}, {}, {}, {}), Claim(false, {}, {}, {}, {})]
  }

  lemma ContestedClaims()
    ensures Claims(Contested().env, 0) == Bids(true)
  {
    var e := Contested().env;
    assert Claims(e, 0)[0] == Bids(true)[0];
    assert Claims(e, 0)[1] == Bids(true)[1];
    assert Claims(e, 0)[2] == Bids(true)[2];
    assert Claims(e, 0)[3] == Bids(true)[3];
  }

  lemma AfterInit(cfg: SmConfig)
    ensures Claims(Init(Contested(), 0, 0, 0, 31, cfg).env, 0) == Bids(false)
  {
    ContestedClaims();
    var e := Contested().env;
    hide Claims, InitSm;
    InitClaims(e, 0, cfg, 0, 0);
    InitClaims(e, 0, cfg, 0, 1);
    InitClaims(e, 0, cfg, 0, 2);
    InitClaims(e, 0, cfg, 0, 3);
  }

  lemma BidsWon(p: Pads)
    ensures Resolve(p, Bids(true)).dirs == {0} && 0 !in Resolve(p, Bids(false)).dirs
  {
    hide Resolve;
    assert WinsDirection(Bids(true), 0, 0) && WinsDirection(Bids(false), 0, 1);
    ResolveDirection(p, Bids(true), 0, 0);
    ResolveDirection(p, Bids(false), 0, 1);
    forall pin: nat | pin != 0
      ensures pin !in Resolve(p, Bids(true)).dirs
    {
      ResolveUnclaimed(p, Bids(true), pin);
    }
  }

  lemma ContestedPad()
    ensures |Contested().env.pads| == 1 && Contested().env.pads[0].dirs == {0}
  {
  }

  /** The pad of GPIO 0 keeps driving although the arbitration now says input. */
  lemma InitLeavesStale(cfg: SmConfig)
    ensures Current(Contested().env, 0) && !Current(Init(Contested(), 0, 0, 0, 31, cfg).env, 0)
  {
    hide Claims, Contested, Bids, Resolve, InitSm;
    ContestedClaims();
    AfterInit(cfg);
    ContestedPad();
    BidsWon(Contested().env.pads[0]);
  }
}
