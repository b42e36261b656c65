/** A controller state whose normal channel is never served although it is ready
    at every arbitration: the waiting bound needs its side condition. */
module DmaStarvation {
  import opened Bits
  import opened Crc
  import opened Options
  import opened Machine
  import opened Dma
  import opened DmaFairness
  import DmaChain
  import DmaCopy
  import DmaTimer

  const HOG: nat := 0        // high priority, paced by timer 0 at half rate
  const NEAR: nat := 1       // normal, unpaced
  const STARVED: nat := 5    // normal, unpaced, never served
  const SOURCE: nat := 0x1000
  const TARGET: nat := 0x2000

  /** A memory-to-memory channel with fixed addresses that chains to nobody. */
  predicate Plain(ch: Channel, i: nat, high: bool, treq: nat, n: nat) {
    && ch.en && ch.busy && ch.count > n
    && ch.ctrl.high == high && ch.ctrl.treq == treq && ch.ctrl.chainTo == i
    && !ch.ctrl.incrRead && !ch.ctrl.incrWrite
    && ch.read.Mem? && ch.read.ptr.Some? && ch.write.Mem? && ch.write.ptr.Some?
  }

  /** The pattern with work for `n` more ticks; `fires` says timer 0 requests at the
      next one. */
  ghost predicate Pattern(c: Chip, fires: bool, n: nat) {
    && c.Valid()
    && Plain(c.dma.ch[HOG], HOG, true, TREQ_TIMER0, n)
    && Plain(c.dma.ch[NEAR], NEAR, false, TREQ_FORCE, n)
    && Plain(c.dma.ch[STARVED], STARVED, false, TREQ_FORCE, n)
    && (forall j :: 0 <= j < CHANNELS && j != HOG && j != NEAR && j != STARVED ==> !c.dma.ch[j].busy)
    && c.dma.timer[0] == Timer(1, 2, if fires then 1 else 0, false)
    && c.dma.rrNext == if fires then 2 else 1
  }

  lemma FreeChannelReady(c: Chip, i: nat, high: bool, treq: nat, n: nat)
    requires c.Valid() && i < CHANNELS && Plain(c.dma.ch[i], i, high, treq, n)
    ensures Ready(c, i) <==> TreqReady(c, treq)
  {
    hide TreqReady;
  }

  lemma ForceIsReady(c: Chip)
    requires c.Valid()
    ensures TreqReady(c, TREQ_FORCE)
    ensures TreqReady(c, TREQ_TIMER0) <==> c.dma.timer[0].credit
  {
    hide RxHasWord, TxHasRoom;
  }

  /** After the timers ticked: who is ready. */
  lemma PatternReady(c: Chip, fires: bool, n: nat)
    requires Pattern(c, fires, n)
    ensures var c1 := TickTimers(c);
            && c1.dma.timer[0] == Timer(1, 2, if fires then 0 else 1, fires)
            && ReadyOf(c1, true) == (if fires then {HOG} else {})
            && ReadyOf(c1, false) == {NEAR, STARVED}
            && Ready(c1, STARVED)
  {
    var c1 := TickTimers(c);
    assert c1.dma.timer[0] == TimerTick(c.dma.timer[0]);
    assert c1.dma.ch == c.dma.ch;
    hide TimersTick, TimerTick, TickTimers;
    ForceIsReady(c1);
    FreeChannelReady(c1, HOG, true, TREQ_TIMER0, n);
    FreeChannelReady(c1, NEAR, false, TREQ_FORCE, n);
    FreeChannelReady(c1, STARVED, false, TREQ_FORCE, n);
    hide TreqReady, Plain;
    forall i: nat | i < CHANNELS && i != HOG && i != NEAR && i != STARVED
      ensures !Ready(c1, i)
    {
      hide CanRead, CanWrite;
    }
    HighOf(c, fires, n);
  }

  lemma HighOf(c: Chip, fires: bool, n: nat)
    requires Pattern(c, fires, n)
    ensures c.dma.ch[HOG].ctrl.high && !c.dma.ch[NEAR].ctrl.high && !c.dma.ch[STARVED].ctrl.high
  {
  }

  /** The arbitration picks the hog when it fires and the near channel otherwise. */
  lemma PatternChoice(c: Chip, fires: bool, n: nat)
    requires Pattern(c, fires, n)
    ensures Choice(TickTimers(c)) == Some(if fires then HOG else NEAR)
  {
    PatternReady(c, fires, n);
    SeatBeforeTimers(c);
    hide Ready, ReadyOf, TickTimers, Plain;
    if fires {
      PickNearest(2, {HOG}, 0, HOG);
    } else {
      PickNone(1, 0);
      assert Seat(1, 0) == NEAR;
    }
  }

  /** Serving a plain channel leaves every plain channel plain, one element poorer. */
  lemma ServedPlain(c: Chip, i: nat, j: nat, high: bool, treq: nat, n: nat)
    requires c.Valid() && i < CHANNELS && j < CHANNELS && Ready(c, i) && n > 0
    requires c.dma.ch[i].ctrl.chainTo == i && Plain(c.dma.ch[j], j, high, treq, n)
    ensures Plain(Transfer(c, i).dma.ch[j], j, high, treq, n - 1)
  {
    DmaChain.TransferChannel(c, i, j);
    DmaCopy.TransferCursors(c, i, j);
    hide Transfer, Ready;
  }

  lemma ServedIdle(c: Chip, i: nat, j: nat)
    requires c.Valid() && i < CHANNELS && j < CHANNELS && Ready(c, i) && j != i
    requires c.dma.ch[i].ctrl.chainTo == i && !c.dma.ch[j].busy
    ensures !Transfer(c, i).dma.ch[j].busy
  {
    DmaChain.TransferChannel(c, i, j);
    hide Transfer, Ready;
  }

  lemma ChainsToItself(c: Chip, fires: bool, n: nat)
    requires Pattern(c, fires, n)
    ensures c.dma.ch[HOG].ctrl.chainTo == HOG && c.dma.ch[HOG].ctrl.treq == TREQ_TIMER0
    ensures c.dma.ch[NEAR].ctrl.chainTo == NEAR && c.dma.ch[NEAR].ctrl.treq == TREQ_FORCE
  {
  }

  lemma ServedTable(c: Chip, fires: bool, n: nat)
    requires Pattern(c, fires, n) && n > 0
    ensures var d := Tick(c).dma;
            && Plain(d.ch[HOG], HOG, true, TREQ_TIMER0, n - 1) && Plain(d.ch[NEAR], NEAR, false, TREQ_FORCE, n - 1)
            && Plain(d.ch[STARVED], STARVED, false, TREQ_FORCE, n - 1)
            && forall j :: 0 <= j < CHANNELS && j != HOG && j != NEAR && j != STARVED ==> !d.ch[j].busy
  {
    PatternChoice(c, fires, n);
    ChainsToItself(c, fires, n);
    DmaChain.TickFrame(c);
    hide Transfer, Choice, Ready, Tick, TickTimers, Plain;
    var c1 := TickTimers(c);
    var i := Choice(c1).value;
    ServedPlain(c1, i, HOG, true, TREQ_TIMER0, n);
    ServedPlain(c1, i, NEAR, false, TREQ_FORCE, n);
    ServedPlain(c1, i, STARVED, false, TREQ_FORCE, n);
    forall j | 0 <= j < CHANNELS && j != HOG && j != NEAR && j != STARVED
      ensures !Tick(c).dma.ch[j].busy
    {
      ServedIdle(c1, i, j);
    }
  }

  lemma ServedTimer(c: Chip, fires: bool, n: nat)
    requires Pattern(c, fires, n)
    ensures Tick(c).dma.timer[0] == Timer(1, 2, if fires then 0 else 1, false)
  {
    PatternChoice(c, fires, n);
    PatternReady(c, fires, n);
    ChainsToItself(c, fires, n);
    DmaChain.TickFrame(c);
    hide Transfer, Choice, Ready, ReadyOf, Tick, TickTimers, Plain;
    var c1 := TickTimers(c);
    DmaTimer.TransferTimer(c1, Choice(c1).value, 0);
  }

  /** The pattern survives a tick, with timer phase and seat alternating. */
  lemma PatternStep(c: Chip, fires: bool, n: nat)
    requires Pattern(c, fires, n) && n > 0
    ensures Pattern(Tick(c), !fires, n - 1)
  {
    ServedTable(c, fires, n);
    ServedTimer(c, fires, n);
    TickPlaysRound(c);
    PatternChoice(c, fires, n);
    hide Tick, TickTimers, Choice, Plain;
  }

  function Ticks(c: Chip, k: nat): (r: Chip)
    requires c.Valid()
    ensures r.Valid()
    decreases k
  {
    if k == 0 then c else Ticks(Tick(c), k - 1)
  }

  /** Channel 5 is ready at every one of the next `n` arbitrations and wins none. */
  lemma {:induction false} ReadyButNeverServed(c: Chip, fires: bool, n: nat, k: nat)
    requires Pattern(c, fires, n) && k <= n
    ensures var c1 := TickTimers(Ticks(c, k)); Ready(c1, STARVED) && Choice(c1) != Some(STARVED)
    decreases k
  {
    hide Pattern, Ready, Choice, Tick, TickTimers, ReadyOf;
    PatternValid(c, fires, n);
    if k == 0 {
      PatternReady(c, fires, n);
      PatternChoice(c, fires, n);
    } else {
      PatternStep(c, fires, n);
      ReadyButNeverServed(Tick(c), !fires, n - 1, k - 1);
    }
  }

  lemma PatternValid(c: Chip, fires: bool, n: nat)
    requires Pattern(c, fires, n)
    ensures c.Valid()
  {
  }

  // ---- a concrete controller ---------------------------------------------------------

  function PlainChannel(i: nat, high: bool, treq: nat, n: nat): Channel {
    Channel(Ctrl(high, 2, false, false, 0, false, i, treq, false, false, false), Mem(Some(SOURCE)), Mem(Some(TARGET)), n, n, true, true)
  }

  function Idle(n: nat): (s: seq<Channel>)
    ensures |s| == n && forall j :: 0 <= j < n ==> !s[j].busy
  {
    if n == 0 then [] else Idle(n - 1) + [NoChannel()]
  }

  /** No blocks attached; channels 0, 1 and 5 hold `n + 1` elements each. */
  function StarvingChip(n: nat): Chip {
    var chs := Idle(CHANNELS)[HOG := PlainChannel(HOG, true, TREQ_TIMER0, n + 1)]
                             [NEAR := PlainChannel(NEAR, false, TREQ_FORCE, n + 1)]
                             [STARVED := PlainChannel(STARVED, false, TREQ_FORCE, n + 1)];
    var off := Timer(0, 0, 0, false);
    Chip(Env(Topo([], [], [], [], []), [], [], []), map[],
         Dma(chs, [], [Timer(1, 2, 0, false), off, off, off], Sniffer(false, 0, Crc32, ZERO), {}, 1))
  }

  /** No waiting bound holds in general: for every `n` there is a controller whose
      channel 5 is ready at `n` consecutive arbitrations and is served at none,
      while a high-priority channel is ready at only half of them. Counts here are
      unbounded; the 32-bit transfer count holds those for n up to 2^32 - 2. */
  lemma NoBoundInGeneral(n: nat, k: nat)
    requires k <= n
    ensures StarvingChip(n).Valid()
    ensures var c1 := TickTimers(Ticks(StarvingChip(n), k)); Ready(c1, STARVED) && Choice(c1) != Some(STARVED)
  {
    assert Pattern(StarvingChip(n), false, n);
    hide Pattern, Ready, Choice, TickTimers, StarvingChip;
    ReadyButNeverServed(StarvingChip(n), false, n, k);
  }
}
