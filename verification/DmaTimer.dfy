/** Pacing timers: a fraction num/den gives exactly its share of requests, and no
    request paces two transfers. */
module DmaTimer {
  import opened Bits
  import opened Runs
  import opened Dma
  import opened DmaChain

  type TimerIx = t: nat | t < TIMERS

  /** A programmed timer: 16-bit fields, a fraction of at most one, phase in range. */
  predicate Proper(t: Timer) {
    t.num <= t.den < 65536 && t.accum < t.den
  }

  predicate Fires(t: Timer) {
    t.den != 0 && (t.accum + t.num) % 0x1_0000_0000 >= t.den
  }

  lemma SmallSum(a: nat)
    requires a < 0x1_0000_0000
    ensures a % 0x1_0000_0000 == a
  {
  }

  /** One tick of a proper timer: the phase gains num and loses den per request. */
  lemma TickPhase(t: Timer)
    requires Proper(t)
    ensures var r := TimerTick(t);
            && Proper(r) && r.num == t.num && r.den == t.den
            && t.accum + t.num == r.accum + (if Fires(t) then t.den else 0)
            && r.credit == (t.credit || Fires(t))
  {
    SmallSum(t.accum + t.num);
  }

  /** What a transfer does to a timer: at most clear the credit it was paced by. */
  lemma TransferTimer(c: Chip, i: nat, t: TimerIx)
    requires c.Valid() && i < CHANNELS && Ready(c, i)
    ensures Transfer(c, i).dma.timer[t]
         == if c.dma.ch[i].ctrl.treq == TREQ_TIMER0 + t then c.dma.timer[t].(credit := false) else c.dma.timer[t]
    ensures c.dma.ch[i].ctrl.treq == TREQ_TIMER0 + t ==> c.dma.timer[t].credit
  {
    ReadyRoutes(c, i);
    if c.dma.ch[i].ctrl.treq == TREQ_TIMER0 + t { ReadyCredit(c, i, t); }
    hide ReadElement, Ready, CanRead, CanWrite, PokeBytes, SniffStep, AdvanceBoth, Complete, PutWord;
    var ch := c.dma.ch[i];
    var v := Moved(ch.ctrl, ReadElement(c, ch.read, Bytes(ch.ctrl.size)).0);
    var d := c.dma.(sniff := SniffStep(c.dma.sniff, ch.ctrl, i, v),
                    timer := SpendCredit(c.dma.timer, ch.ctrl.treq),
                    ch := c.dma.ch[i := AdvanceBoth(ch)]);
    CompleteTimers(d, i);
  }

  lemma CompleteTimers(d: Dma, i: nat)
    requires i < CHANNELS
    ensures Complete(d, i).timer == d.timer
  {
    hide StartChannels, NullTriggers, CountDown;
  }

  lemma ReadyCredit(c: Chip, i: nat, t: TimerIx)
    requires c.Valid() && i < CHANNELS && Ready(c, i) && c.dma.ch[i].ctrl.treq == TREQ_TIMER0 + t
    ensures c.dma.timer[t].credit
  {
    hide CanRead, CanWrite, RxHasWord, TxHasRoom;
  }

  /** The tick moved an element on a channel paced by timer `t`. */
  predicate Paces(c: Chip, t: TimerIx)
    requires c.Valid()
  {
    var i := Choice(TickTimers(c));
    i.Some? && c.dma.ch[i.value].ctrl.treq == TREQ_TIMER0 + t
  }

  lemma TickTimer(c: Chip, t: TimerIx)
    requires c.Valid() && Proper(c.dma.timer[t])
    ensures var a, r := c.dma.timer[t], Tick(c).dma.timer[t];
            && Proper(r) && r.num == a.num && r.den == a.den
            && a.accum + a.num == r.accum + (if Fires(a) then a.den else 0)
            && (Paces(c, t) ==> a.credit || Fires(a))
            && r.credit == ((a.credit || Fires(a)) && !Paces(c, t))
  {
    TickPhase(c.dma.timer[t]);
    var c1 := TickTimers(c);
    TickFrame(c);
    assert c1.dma.timer[t] == TimerTick(c.dma.timer[t]);
    hide Transfer, Choice, Ready, TickTimers, Tick, TimerTick, Fires;
    var i := Choice(c1);
    if i.Some? { TransferTimer(c1, i.value, t); }
  }

  lemma OtherOpTimers(c: Chip, op: DmaOp)
    requires c.Valid() && OpApplies(op, c.env) && !op.TickOp?
    ensures DoOp(c, op).dma.timer == c.dma.timer
  {
  }

  function TickCount(ops: seq<DmaOp>): nat {
    if ops == [] then 0 else (if ops[0].TickOp? then 1 else 0) + TickCount(ops[1..])
  }

  /** Requests timer `t` makes during a run. */
  function Requests(c: Chip, t: TimerIx, ops: seq<DmaOp>): nat
    requires c.Valid() && OpsApply(ops, c.env)
    decreases ops
  {
    if ops == [] then 0
    else
      OpsTail(ops, c.env, DoOp(c, ops[0]).env);
      (if ops[0].TickOp? && Fires(c.dma.timer[t]) then 1 else 0) + Requests(DoOp(c, ops[0]), t, ops[1..])
  }

  /** Transfers it paces, over all channels. */
  function Paced(c: Chip, t: TimerIx, ops: seq<DmaOp>): nat
    requires c.Valid() && OpsApply(ops, c.env)
    decreases ops
  {
    if ops == [] then 0
    else
      OpsTail(ops, c.env, DoOp(c, ops[0]).env);
      (if ops[0].TickOp? && Paces(c, t) then 1 else 0) + Paced(DoOp(c, ops[0]), t, ops[1..])
  }

  function Bit(b: bool): nat { if b then 1 else 0 }

  /** Conservation over every run: phase gained is requests made plus phase left,
      and every paced transfer spends its own request. */
  lemma {:induction false} PacingConserved(c: Chip, t: TimerIx, ops: seq<DmaOp>)
    requires c.Valid() && OpsApply(ops, c.env) && Proper(c.dma.timer[t])
    ensures var a, r := c.dma.timer[t], RunOps(c, ops).dma.timer[t];
            && Proper(r) && r.num == a.num && r.den == a.den
            && a.accum + TickCount(ops) * a.num == Requests(c, t, ops) * a.den + r.accum
            && Paced(c, t, ops) + Bit(r.credit) <= Requests(c, t, ops) + Bit(a.credit)
    decreases ops
  {
    hide DoOp, Fires, Paces;
    if ops != [] {
      var a, c' := c.dma.timer[t], DoOp(c, ops[0]);
      OpsTail(ops, c.env, c'.env);
      DoTimer(c, t, ops[0]);
      PacingConserved(c', t, ops[1..]);
      Distribute(TickCount(ops[1..]), a.num);
      Distribute(Requests(c', t, ops[1..]), a.den);
    }
  }

  lemma DoTimer(c: Chip, t: TimerIx, op: DmaOp)
    requires c.Valid() && OpApplies(op, c.env) && Proper(c.dma.timer[t])
    ensures var a, r, k := c.dma.timer[t], DoOp(c, op).dma.timer[t], op.TickOp?;
            && Proper(r) && r.num == a.num && r.den == a.den
            && a.accum + (if k then a.num else 0) == r.accum + (if k && Fires(a) then a.den else 0)
            && Bit(k && Paces(c, t)) + Bit(r.credit) <= Bit(k && Fires(a)) + Bit(a.credit)
  {
    hide Tick, Fires, Paces;
    if op.TickOp? { TickTimer(c, t); } else { OtherOpTimers(c, op); }
  }

  /** A timer just set to num/den makes exactly floor(n num / den) requests in n
      ticks and paces at most that many transfers over all channels. */
  lemma TimerRateIsExact(c: Chip, t: TimerIx, ops: seq<DmaOp>)
    requires c.Valid() && OpsApply(ops, c.env)
    requires var a := c.dma.timer[t]; a.num <= a.den < 65536 && a.den > 0 && a.accum == 0 && !a.credit
    ensures Requests(c, t, ops) == TickCount(ops) * c.dma.timer[t].num / c.dma.timer[t].den
    ensures Paced(c, t, ops) <= Requests(c, t, ops)
  {
    hide RunOps, Requests, Paced;
    var a := c.dma.timer[t];
    PacingConserved(c, t, ops);
    ModUnique(TickCount(ops) * a.num, a.den, Requests(c, t, ops), RunOps(c, ops).dma.timer[t].accum);
  }

  // ---- the exact condition ------------------------------------------------------------

  /** Requests a timer makes by itself in `n` ticks. */
  function RequestsIn(t: Timer, n: nat): (r: nat)
    decreases n
    ensures r <= n
  {
    if n == 0 then 0 else (if Fires(t) then 1 else 0) + RequestsIn(TimerTick(t), n - 1)
  }

  function PhaseAfter(t: Timer, n: nat): nat
    decreases n
  {
    if n == 0 then t.accum else PhaseAfter(TimerTick(t), n - 1)
  }

  lemma {:induction false} PhaseIn(t: Timer, n: nat)
    requires Proper(t)
    ensures t.accum + n * t.num == RequestsIn(t, n) * t.den + PhaseAfter(t, n) && PhaseAfter(t, n) < t.den
    decreases n
  {
    hide Fires, TimerTick;
    if n > 0 {
      TickPhase(t);
      PhaseIn(TimerTick(t), n - 1);
      Distribute(n - 1, t.num);
      Distribute(RequestsIn(TimerTick(t), n - 1), t.den);
    }
  }

  /** The right number of requests after `n` ticks of a fresh timer. */
  predicate RightCount(num: nat, den: nat, n: nat)
    requires den > 0
  {
    RequestsIn(Timer(num, den, 0, false), n) == n * num / den
  }

  lemma RightBelowOne(num: nat, den: nat, n: nat)
    requires num <= den < 65536 && den > 0
    ensures RightCount(num, den, n)
  {
    var t := Timer(num, den, 0, false);
    PhaseIn(t, n);
    hide RequestsIn, PhaseAfter;
    ModUnique(n * num, den, RequestsIn(t, n), PhaseAfter(t, n));
  }

  lemma WrongAboveOne(num: nat, den: nat)
    requires 0 < den < num
    ensures !RightCount(num, den, den)
  {
    hide RequestsIn;
    ModUnique(den * num, den, num, 0);
    assert RequestsIn(Timer(num, den, 0, false), den) <= den;
  }

  /** The rate is exact for every number of ticks iff the fraction is at most one:
      above one, `den` ticks cannot make `num` requests. */
  lemma RateExactIff(num: nat, den: nat)
    requires num < 65536 && 0 < den < 65536
    ensures (forall n: nat :: RightCount(num, den, n)) <==> num <= den
  {
    hide RightCount;
    if num <= den {
      forall n: nat
        ensures RightCount(num, den, n)
      {
        RightBelowOne(num, den, n);
      }
    } else {
      WrongAboveOne(num, den);
    }
  }
}
