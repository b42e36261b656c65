/** Triggering and chaining: counts never underflow, and a ring of chained
    channels passes one busy token around forever. */
module DmaChain {
  import opened Machine
  import opened Runs
  import opened Dma

  // ---- busy channels have work left ---------------------------------------------

  ghost predicate BusyHasCount(d: Dma) {
    forall i :: 0 <= i < CHANNELS && d.ch[i].busy ==> d.ch[i].count > 0
  }

  /** What a channel is programmed to do; transfers never change it. */
  predicate SameProgram(a: Channel, b: Channel) {
    b.ctrl == a.ctrl && b.reload == a.reload && b.en == a.en
  }

  /** Channel `j` after channel `i` completed an element. */
  lemma CompleteChannel(d: Dma, i: nat, j: nat)
    requires i < CHANNELS && j < CHANNELS
    ensures var ch, next := d.ch[i], Complete(d, i).ch[j];
            var last := CountDown(ch.count) == 0;
            var chained := last && ch.ctrl.chainTo == j && j != i && d.ch[j].reload > 0;
            && SameProgram(d.ch[j], next)
            && next.busy == (chained || (d.ch[j].busy && !(j == i && last)))
            && next.count == (if chained then d.ch[j].reload else if j == i then CountDown(ch.count) else d.ch[j].count)
  {
  }

  lemma CompleteIntr(d: Dma, i: nat, j: nat)
    requires i < CHANNELS && j < CHANNELS
    ensures var ch := d.ch[i];
            var last := CountDown(ch.count) == 0;
            var nulled := last && ch.ctrl.chainTo == j && j != i && d.ch[j].reload == 0 && d.ch[j].ctrl.quiet;
            j in Complete(d, i).intr <==> j in d.intr || (j == i && last && !ch.ctrl.quiet) || nulled
  {
  }

  /** A transfer changes the channel table only through its bookkeeping. */
  lemma TransferChannel(c: Chip, i: nat, j: nat)
    requires c.Valid() && i < CHANNELS && j < CHANNELS && Ready(c, i)
    ensures var d, r := c.dma, Transfer(c, i).dma;
            var last := CountDown(d.ch[i].count) == 0;
            var chained := last && d.ch[i].ctrl.chainTo == j && j != i && d.ch[j].reload > 0;
            var nulled := last && d.ch[i].ctrl.chainTo == j && j != i && d.ch[j].reload == 0 && d.ch[j].ctrl.quiet;
            && SameProgram(d.ch[j], r.ch[j])
            && r.ch[j].busy == (chained || (d.ch[j].busy && !(j == i && last)))
            && r.ch[j].count == (if chained then d.ch[j].reload else if j == i then CountDown(d.ch[i].count) else d.ch[j].count)
            && (j in r.intr <==> (j in d.intr || (j == i && last && !d.ch[i].ctrl.quiet) || nulled))
  {
    ReadyRoutes(c, i);
    hide ReadElement, Ready, CanRead, CanWrite, PokeBytes, SniffStep, SpendCredit, Advance, Complete, CountDown, PutWord;
    var ch := c.dma.ch[i];
    var v := Moved(ch.ctrl, ReadElement(c, ch.read, Bytes(ch.ctrl.size)).0);
    var d := c.dma.(sniff := SniffStep(c.dma.sniff, ch.ctrl, i, v),
                    timer := SpendCredit(c.dma.timer, ch.ctrl.treq),
                    ch := c.dma.ch[i := AdvanceBoth(ch)]);
    CompleteChannel(d, i, j);
    CompleteIntr(d, i, j);
  }

  lemma ReadyRoutes(c: Chip, i: nat)
    requires c.Valid() && i < CHANNELS && Ready(c, i)
    ensures CanRead(c, c.dma.ch[i].read) && CanWrite(c, c.dma.ch[i].write)
    ensures !c.dma.ch[i].write.Rxf?
  {
  }

  /** Host operations on the controller, and anything the PIO side may do. */
  datatype DmaOp =
    | TickOp
    | StartOp(mask: set<nat>)
    | AbortOp(mask: set<nat>)
    | ConfigureOp(i: nat, ctrl: Ctrl, write: Addr, read: Addr, reload: nat, trigger: bool)
    | EnableOp(i: nat, en: bool)
    | PioOp(env: Env)

  /** Operations name real channels; the PIO side keeps its wiring. */
  ghost predicate OpApplies(op: DmaOp, e: Env) {
    match op
    case ConfigureOp(i, _, _, _, _, _) => i < CHANNELS
    case EnableOp(i, _) => i < CHANNELS
    case PioOp(env) => SameShape(e, env)
    case _ => true
  }

  function Abort(chs: Channels, mask: set<nat>): Channels {
    seq<Channel>(CHANNELS, i requires 0 <= i < CHANNELS => if i in mask then chs[i].(busy := false) else chs[i])
  }

  /** pio_dma_channel_configure: a new program, then an optional trigger. */
  function Configure(d: Dma, i: nat, ctrl: Ctrl, write: Addr, read: Addr, reload: nat, trigger: bool): Dma
    requires i < CHANNELS
  {
    var ch := d.ch[i].(ctrl := ctrl, write := write, read := read, reload := reload, en := true);
    var d' := d.(ch := d.ch[i := ch]);
    if trigger then Start(d', {i}) else d'
  }

  function DoOp(c: Chip, op: DmaOp): (r: Chip)
    requires c.Valid() && OpApplies(op, c.env)
    ensures r.Valid() && SameShape(c.env, r.env)
  {
    match op
    case TickOp => Tick(c)
    case StartOp(mask) => c.(dma := Start(c.dma, mask))
    case AbortOp(mask) => c.(dma := c.dma.(ch := Abort(c.dma.ch, mask)))
    case ConfigureOp(i, ctrl, write, read, reload, trigger) =>
      c.(dma := Configure(c.dma, i, ctrl, write, read, reload, trigger))
    case EnableOp(i, en) => c.(dma := c.dma.(ch := c.dma.ch[i := c.dma.ch[i].(en := en)]))
    case PioOp(env) => c.(env := env)
  }

  ghost predicate OpsApply(ops: seq<DmaOp>, e: Env) {
    forall k :: 0 <= k < |ops| ==> OpApplies(ops[k], e)
  }

  function RunOps(c: Chip, ops: seq<DmaOp>): (r: Chip)
    requires c.Valid() && OpsApply(ops, c.env)
    ensures r.Valid() && SameShape(c.env, r.env)
    decreases ops
  {
    if ops == [] then c
    else
      OpsTail(ops, c.env, DoOp(c, ops[0]).env);
      RunOps(DoOp(c, ops[0]), ops[1..])
  }

  lemma OpsTail(ops: seq<DmaOp>, e: Env, r: Env)
    requires ops != [] && OpsApply(ops, e) && SameShape(e, r)
    ensures OpsApply(ops[1..], r)
  {
    forall k | 0 <= k < |ops[1..]|
      ensures OpApplies(ops[1..][k], r)
    {
      assert OpApplies(ops[k + 1], e);
    }
  }

  /** A tick: the timers, then at most one transfer, then the seat. */
  lemma TickFrame(c: Chip)
    requires c.Valid()
    ensures var c1 := TickTimers(c);
            && c1.dma.ch == c.dma.ch && c1.dma.intr == c.dma.intr && c1.mem == c.mem && c1.env == c.env
            && c1.dma.pio == c.dma.pio && Tick(c).dma.pio == c.dma.pio
            && (Choice(c1).None? ==> Tick(c) == c1)
            && (Choice(c1).Some? ==>
                  var t := Transfer(c1, Choice(c1).value);
                  && Tick(c).dma.ch == t.dma.ch && Tick(c).dma.intr == t.dma.intr && Tick(c).dma.timer == t.dma.timer
                  && Tick(c).mem == t.mem && Tick(c).env == t.env)
  {
    hide Transfer, Choice, TimersTick, Ready;
  }

  lemma TickKeepsCounts(c: Chip)
    requires c.Valid() && BusyHasCount(c.dma)
    ensures BusyHasCount(Tick(c).dma)
  {
    hide Transfer, Choice, Ready, TimersTick;
    var c1 := TickTimers(c);
    var i := Choice(c1);
    if i.Some? {
      forall j | 0 <= j < CHANNELS && Transfer(c1, i.value).dma.ch[j].busy
        ensures Transfer(c1, i.value).dma.ch[j].count > 0
      {
        TransferChannel(c1, i.value, j);
      }
    }
  }

  /** Every operation keeps a busy channel's count positive. */
  lemma DoOpKeepsCounts(c: Chip, op: DmaOp)
    requires c.Valid() && OpApplies(op, c.env) && BusyHasCount(c.dma)
    ensures BusyHasCount(DoOp(c, op).dma)
  {
    hide Tick;
    if op.TickOp? { TickKeepsCounts(c); }
  }

  /** In every reachable state busy implies a positive count, so the 32-bit
      decrement of a transfer never underflows. */
  lemma {:induction false} CountsNeverUnderflow(c: Chip, ops: seq<DmaOp>)
    requires c.Valid() && OpsApply(ops, c.env) && BusyHasCount(c.dma)
    ensures BusyHasCount(RunOps(c, ops).dma)
    decreases ops
  {
    hide DoOp, BusyHasCount;
    if ops != [] {
      DoOpKeepsCounts(c, ops[0]);
      OpsTail(ops, c.env, DoOp(c, ops[0]).env);
      CountsNeverUnderflow(DoOp(c, ops[0]), ops[1..]);
    }
  }

  // ---- a ring of channels ---------------------------------------------------------

  type Chan = i: nat | i < CHANNELS

  function After(n: nat, p: nat): (q: nat)
    requires p < n
    ensures q < n
  {
    if p + 1 < n then p + 1 else 0
  }

  /** `ring` lists distinct channels, each chained to the next, all with work to
      load; nobody outside chains in. */
  ghost predicate IsRing(d: Dma, ring: seq<Chan>) {
    && |ring| >= 2
    && (forall p, q :: 0 <= p < q < |ring| ==> ring[p] != ring[q])
    && (forall p :: 0 <= p < |ring| ==> d.ch[ring[p]].ctrl.chainTo == ring[After(|ring|, p)] && d.ch[ring[p]].reload > 0)
    && (forall j :: 0 <= j < CHANNELS && j !in ring ==> d.ch[j].ctrl.chainTo !in ring)
  }

  /** The token: position `p` of the ring is busy with `k` elements to go. */
  datatype Token = Token(p: nat, k: nat)

  ghost predicate Holds(d: Dma, ring: seq<Chan>, t: Token) {
    && t.p < |ring| && 1 <= t.k <= d.ch[ring[t.p]].reload
    && d.ch[ring[t.p]].busy && d.ch[ring[t.p]].count == t.k
    && (forall q :: 0 <= q < |ring| && q != t.p ==> !d.ch[ring[q]].busy)
  }

  /** The token after one more element: count down, then hand a full reload on. */
  function Pass(d: Dma, ring: seq<Chan>, t: Token): Token
    requires IsRing(d, ring) && t.p < |ring| && t.k >= 1
  {
    if t.k > 1 then Token(t.p, t.k - 1)
    else Token(After(|ring|, t.p), d.ch[ring[After(|ring|, t.p)]].reload)
  }

  lemma SamePrograms(c: Chip)
    requires c.Valid()
    ensures forall j :: 0 <= j < CHANNELS ==> SameProgram(c.dma.ch[j], Tick(c).dma.ch[j])
  {
    hide Transfer, Choice, Ready, TimersTick;
    var c1 := TickTimers(c);
    var i := Choice(c1);
    if i.Some? {
      forall j | 0 <= j < CHANNELS
        ensures SameProgram(c.dma.ch[j], Transfer(c1, i.value).dma.ch[j])
      {
        TransferChannel(c1, i.value, j);
      }
    }
  }

  lemma RingStays(d: Dma, r: Dma, ring: seq<Chan>)
    requires IsRing(d, ring) && forall j :: 0 <= j < CHANNELS ==> SameProgram(d.ch[j], r.ch[j])
    ensures IsRing(r, ring)
  {
  }

  /** A ring channel's successor is the only ring channel it chains to. */
  lemma RingSuccessor(d: Dma, ring: seq<Chan>, p: nat, q: nat)
    requires IsRing(d, ring) && p < |ring| && q < |ring|
    ensures ring[p] == ring[q] <==> p == q
    ensures d.ch[ring[p]].ctrl.chainTo == ring[q] <==> q == After(|ring|, p)
    ensures After(|ring|, p) != p
    ensures d.ch[ring[q]].reload > 0
  {
    var n := After(|ring|, p);
    assert p < q ==> ring[p] != ring[q];
    assert q < p ==> ring[q] != ring[p];
    assert n < q ==> ring[n] != ring[q];
    assert q < n ==> ring[q] != ring[n];
  }

  /** Ring position `q` after the busy position `t.p` moved an element. */
  lemma RingServedAt(c: Chip, ring: seq<Chan>, t: Token, q: nat)
    requires c.Valid() && IsRing(c.dma, ring) && Holds(c.dma, ring, t) && Ready(c, ring[t.p]) && q < |ring|
    ensures var d, r, u := c.dma, Transfer(c, ring[t.p]).dma, Pass(c.dma, ring, t);
            && r.ch[ring[q]].reload == d.ch[ring[q]].reload
            && r.ch[ring[q]].busy == (q == u.p)
            && (q == u.p ==> r.ch[ring[q]].count == u.k)
            && (ring[q] in r.intr <==> (ring[q] in d.intr || (q == t.p && t.k == 1 && !d.ch[ring[q]].ctrl.quiet)))
  {
    hide Transfer, Ready, IsRing;
    RingSuccessor(c.dma, ring, t.p, q);
    TransferChannel(c, ring[t.p], ring[q]);
  }

  lemma PassInRange(d: Dma, ring: seq<Chan>, t: Token)
    requires IsRing(d, ring) && Holds(d, ring, t)
    ensures var u := Pass(d, ring, t); u.p < |ring| && 1 <= u.k <= d.ch[ring[u.p]].reload
  {
  }

  /** Serving the busy ring channel passes the token. */
  lemma RingServed(c: Chip, ring: seq<Chan>, t: Token)
    requires c.Valid() && IsRing(c.dma, ring) && Holds(c.dma, ring, t) && Ready(c, ring[t.p])
    ensures Holds(Transfer(c, ring[t.p]).dma, ring, Pass(c.dma, ring, t))
  {
    hide Transfer, Ready, IsRing, Pass;
    var r, u := Transfer(c, ring[t.p]).dma, Pass(c.dma, ring, t);
    PassInRange(c.dma, ring, t);
    RingServedAt(c, ring, t, u.p);
    forall q | 0 <= q < |ring|
      ensures q != u.p ==> !r.ch[ring[q]].busy
    {
      RingServedAt(c, ring, t, q);
    }
  }

  /** Serving a channel outside the ring does not disturb it. */
  lemma RingUntouched(c: Chip, ring: seq<Chan>, t: Token, i: nat)
    requires c.Valid() && IsRing(c.dma, ring) && Holds(c.dma, ring, t) && i < CHANNELS && Ready(c, i) && i !in ring
    ensures var r := Transfer(c, i).dma;
            && Holds(r, ring, t)
            && forall q :: 0 <= q < |ring| ==> (ring[q] in r.intr <==> ring[q] in c.dma.intr)
  {
    hide Transfer, Ready;
    forall q | 0 <= q < |ring|
      ensures var d, r := c.dma, Transfer(c, i).dma;
              && r.ch[ring[q]].reload == d.ch[ring[q]].reload && r.ch[ring[q]].busy == d.ch[ring[q]].busy
              && r.ch[ring[q]].count == d.ch[ring[q]].count && (ring[q] in r.intr <==> ring[q] in d.intr)
    {
      TransferChannel(c, i, ring[q]);
      assert ring[q] in ring;
    }
  }

  /** The controller served the ring in this tick. */
  predicate ServesRing(c: Chip, ring: seq<Chan>)
    requires c.Valid()
  {
    var i := Choice(TickTimers(c));
    i.Some? && i.value in ring
  }

  /** Only the token's holder can be served from the ring. */
  lemma ServedHolds(c: Chip, ring: seq<Chan>, t: Token, i: nat)
    requires c.Valid() && IsRing(c.dma, ring) && Holds(c.dma, ring, t) && i < CHANNELS && Ready(c, i) && i in ring
    ensures i == ring[t.p]
  {
    hide TreqReady, CanRead, CanWrite;
    var q :| 0 <= q < |ring| && ring[q] == i;
  }

  /** The ring and its token live in the channel table alone. */
  lemma SameTableRing(d: Dma, r: Dma, ring: seq<Chan>)
    requires IsRing(d, ring) && r.ch == d.ch
    ensures IsRing(r, ring)
  {
  }

  lemma SameTableToken(d: Dma, r: Dma, ring: seq<Chan>, t: Token)
    requires Holds(d, ring, t) && r.ch == d.ch
    ensures Holds(r, ring, t)
  {
  }

  lemma SameTablePass(d: Dma, r: Dma, ring: seq<Chan>, t: Token)
    requires IsRing(d, ring) && IsRing(r, ring) && r.ch == d.ch && t.p < |ring| && t.k >= 1
    ensures Pass(r, ring, t) == Pass(d, ring, t)
  {
    hide IsRing;
  }

  lemma TimersLeaveRing(d: Dma, ring: seq<Chan>, t: Token, ts: Timers)
    requires IsRing(d, ring) && Holds(d, ring, t)
    ensures IsRing(d.(timer := ts), ring) && Holds(d.(timer := ts), ring, t)
    ensures Pass(d.(timer := ts), ring, t) == Pass(d, ring, t)
  {
    hide IsRing, Holds, Pass;
    var r := d.(timer := ts);
    SameTableRing(d, r, ring);
    SameTableToken(d, r, ring, t);
    TokenInRange(d, ring, t);
    SameTablePass(d, r, ring, t);
  }

  lemma SeatLeavesRing(d: Dma, ring: seq<Chan>, t: Token, rr: nat)
    requires Holds(d, ring, t)
    ensures Holds(d.(rrNext := rr), ring, t)
  {
    hide Holds;
    SameTableToken(d, d.(rrNext := rr), ring, t);
  }

  /** A tick passes the token if it served the ring, and otherwise keeps it. */
  lemma TickPassesToken(c: Chip, ring: seq<Chan>, t: Token)
    requires c.Valid() && IsRing(c.dma, ring) && Holds(c.dma, ring, t)
    ensures IsRing(Tick(c).dma, ring)
    ensures Holds(Tick(c).dma, ring, if ServesRing(c, ring) then Pass(c.dma, ring, t) else t)
  {
    SamePrograms(c);
    RingStays(c.dma, Tick(c).dma, ring);
    var c1 := TickTimers(c);
    TimersLeaveRing(c.dma, ring, t, TimersTick(c.dma.timer));
    hide IsRing, Holds, Transfer, Choice, TickTimers, Ready, Pass;
    var i := Choice(c1);
    if i.Some? {
      if i.value in ring {
        ServedHolds(c1, ring, t, i.value);
        RingServed(c1, ring, t);
        SeatLeavesRing(Transfer(c1, i.value).dma, ring, Pass(c.dma, ring, t), Seat(i.value, 1));
      } else {
        RingUntouched(c1, ring, t, i.value);
        SeatLeavesRing(Transfer(c1, i.value).dma, ring, t, Seat(i.value, 1));
      }
    }
  }

  /** Interrupts of a ring position when channel `i` is served. */
  lemma RingIntrAt(c: Chip, ring: seq<Chan>, t: Token, i: nat, q: nat)
    requires c.Valid() && IsRing(c.dma, ring) && Holds(c.dma, ring, t) && q < |ring| && i < CHANNELS && Ready(c, i)
    ensures var raised := i in ring && q == t.p && t.k == 1 && !c.dma.ch[ring[q]].ctrl.quiet;
            ring[q] in Transfer(c, i).dma.intr <==> (ring[q] in c.dma.intr || raised)
  {
    hide IsRing, Transfer, Ready, Pass;
    if i in ring {
      ServedHolds(c, ring, t, i);
      RingServedAt(c, ring, t, q);
    } else {
      RingUntouched(c, ring, t, i);
    }
  }

  /** A ring channel's interrupt is raised exactly at the end of its run, exactly
      when it is not quiet. */
  lemma RingInterrupts(c: Chip, ring: seq<Chan>, t: Token, q: nat)
    requires c.Valid() && IsRing(c.dma, ring) && Holds(c.dma, ring, t) && q < |ring|
    ensures var raised := ServesRing(c, ring) && q == t.p && t.k == 1 && !c.dma.ch[ring[q]].ctrl.quiet;
            ring[q] in Tick(c).dma.intr <==> (ring[q] in c.dma.intr || raised)
  {
    var c1 := TickTimers(c);
    TimersLeaveRing(c.dma, ring, t, TimersTick(c.dma.timer));
    TickFrame(c);
    hide IsRing, Holds, Transfer, Choice, TickTimers, Tick, Ready, Pass;
    var i := Choice(c1);
    if i.Some? { RingIntrAt(c1, ring, t, i.value, q); }
  }

  function RingServes(c: Chip, ring: seq<Chan>, ops: seq<DmaOp>): nat
    requires c.Valid() && OpsApply(ops, c.env)
    decreases ops
  {
    if ops == [] then 0
    else
      OpsTail(ops, c.env, DoOp(c, ops[0]).env);
      (if ops[0].TickOp? && ServesRing(c, ring) then 1 else 0) + RingServes(DoOp(c, ops[0]), ring, ops[1..])
  }

  /** The token after `m` elements. */
  function PassN(d: Dma, ring: seq<Chan>, t: Token, m: nat): (r: Token)
    requires IsRing(d, ring) && t.p < |ring| && t.k >= 1
    ensures r.p < |ring| && r.k >= 1
    decreases m
  {
    if m == 0 then t else PassN(d, ring, Pass(d, ring, t), m - 1)
  }

  lemma {:induction false} PassNSame(d: Dma, r: Dma, ring: seq<Chan>, t: Token, m: nat)
    requires IsRing(d, ring) && IsRing(r, ring) && t.p < |ring| && t.k >= 1
    requires forall j :: 0 <= j < CHANNELS ==> d.ch[j].reload == r.ch[j].reload
    ensures PassN(r, ring, t, m) == PassN(d, ring, t, m)
    decreases m
  {
    if m > 0 {
      SamePass(d, r, ring, t);
      hide IsRing, Pass;
      PassNSame(d, r, ring, Pass(d, ring, t), m - 1);
    }
  }

  lemma SamePass(d: Dma, r: Dma, ring: seq<Chan>, t: Token)
    requires IsRing(d, ring) && IsRing(r, ring) && t.p < |ring| && t.k >= 1
    requires forall j :: 0 <= j < CHANNELS ==> d.ch[j].reload == r.ch[j].reload
    ensures Pass(r, ring, t) == Pass(d, ring, t) && Pass(d, ring, t).p < |ring| && Pass(d, ring, t).k >= 1
  {
  }

  /** With no outside trigger or abort, after every tick of every run exactly one
      ring channel is busy, and the run history is the token's: each channel runs
      its full reload count, then hands over to the next. */
  lemma {:induction false} RingRunsForever(c: Chip, ring: seq<Chan>, t: Token, ops: seq<DmaOp>)
    requires c.Valid() && OpsApply(ops, c.env) && IsRing(c.dma, ring) && Holds(c.dma, ring, t)
    requires forall k :: 0 <= k < |ops| ==> ops[k].TickOp? || ops[k].PioOp?
    ensures IsRing(RunOps(c, ops).dma, ring)
    ensures Holds(RunOps(c, ops).dma, ring, PassN(c.dma, ring, t, RingServes(c, ring, ops)))
    decreases ops
  {
    hide IsRing, Holds, Tick, ServesRing, Pass;
    if ops != [] {
      var c' := DoOp(c, ops[0]);
      OpsTail(ops, c.env, c'.env);
      if ops[0].TickOp? {
        TickPassesToken(c, ring, t);
        TokenInRange(c.dma, ring, t);
        SamePrograms(c);
        var t' := if ServesRing(c, ring) then Pass(c.dma, ring, t) else t;
        TokenInRange(c'.dma, ring, t');
        RingRunsForever(c', ring, t', ops[1..]);
        PassNSame(c.dma, c'.dma, ring, t', RingServes(c', ring, ops[1..]));
      } else {
        RingRunsForever(c', ring, t, ops[1..]);
      }
    }
  }

  lemma TokenInRange(d: Dma, ring: seq<Chan>, t: Token)
    requires Holds(d, ring, t)
    ensures t.p < |ring| && t.k >= 1
  {
  }

  /** One full run: `k` elements later the token has moved on with the next
      channel's reload. */
  lemma {:induction false} FullRun(d: Dma, ring: seq<Chan>, t: Token)
    requires IsRing(d, ring) && t.p < |ring| && t.k >= 1
    ensures PassN(d, ring, t, t.k) == Token(After(|ring|, t.p), d.ch[ring[After(|ring|, t.p)]].reload)
    decreases t.k
  {
    if t.k > 1 {
      FullRun(d, ring, Token(t.p, t.k - 1));
    } else {
      assert PassN(d, ring, Pass(d, ring, t), 0) == Pass(d, ring, t);
    }
  }
}
