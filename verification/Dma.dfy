/** The DMA controller on values: endpoints, readiness, one element transfer,
    triggering and chaining, pacing timers and two-priority arbitration. */
module Dma {
  import opened Bits
  import opened Crc
  import opened Options
  import opened Machine
  import opened Runs

  const CHANNELS: nat := 16
  const TIMERS: nat := 4
  const POINTER_BITS: nat := 64
  const TREQ_TIMER0: nat := 0x3B
  const TREQ_FORCE: nat := 0x3F

  /** Host memory by address; an address never written reads as zero. */
  type Memory = map<nat, Byte>

  function Peek(m: Memory, a: nat): Byte {
    if a in m then m[a] else Zeros(8)
  }

  /** A transfer endpoint; a memory endpoint may be NULL. */
  datatype Addr = Mem(ptr: Option<nat>) | Txf(pio: nat, sm: nat) | Rxf(pio: nat, sm: nat)

  type SizeCode = n: nat | n <= 2

  datatype Ctrl = Ctrl(
    high: bool, size: SizeCode, incrRead: bool, incrWrite: bool, ringSize: nat, ringWrite: bool,
    chainTo: nat, treq: nat, bswap: bool, quiet: bool, sniffEn: bool)

  datatype Channel = Channel(ctrl: Ctrl, read: Addr, write: Addr, count: nat, reload: nat, en: bool, busy: bool)

  datatype Timer = Timer(num: nat, den: nat, accum: nat, credit: bool)

  datatype Sniffer = Sniffer(en: bool, chan: nat, mode: Calc, data: Word)

  type Channels = s: seq<Channel> | |s| == CHANNELS ghost witness seq(CHANNELS, _ => NoChannel())
  type Timers = s: seq<Timer> | |s| == TIMERS ghost witness seq(TIMERS, _ => Timer(0, 0, 0, false))

  function NoChannel(): Channel {
    Channel(Ctrl(false, 2, true, false, 0, false, 0, TREQ_FORCE, false, false, false), Mem(None), Mem(None), 0, 0, false, false)
  }

  datatype Dma = Dma(
    ch: Channels, pio: seq<Option<nat>>, timer: Timers, sniff: Sniffer, intr: set<nat>, rrNext: nat)

  /** The controller, the blocks it serves, and memory. */
  datatype Chip = Chip(env: Env, mem: Memory, dma: Dma) {
    ghost predicate Valid() {
      && env.Valid() && dma.rrNext < CHANNELS
      && forall i :: 0 <= i < |dma.pio| && dma.pio[i].Some? ==> dma.pio[i].value < |env.irq|
    }
  }

  // ---- readiness ---------------------------------------------------------------

  /** The state machine behind a FIFO endpoint, if its block is attached. */
  function FifoOwner(c: Chip, pio: nat, sm: nat): (r: Option<nat>)
    requires c.Valid()
    ensures r.Some? ==> r.value < |c.env.sm|
  {
    if pio < |c.dma.pio| && c.dma.pio[pio].Some? then Some(4 * c.dma.pio[pio].value + sm % 4) else None
  }

  predicate TxHasRoom(c: Chip, pio: nat, sm: nat)
    requires c.Valid()
  {
    var g := FifoOwner(c, pio, sm);
    g.Some? && !c.env.sm[g.value].tx.Full()
  }

  predicate RxHasWord(c: Chip, pio: nat, sm: nat)
    requires c.Valid()
  {
    var g := FifoOwner(c, pio, sm);
    g.Some? && !c.env.sm[g.value].rx.Empty()
  }

  predicate IsTimer(treq: nat) {
    TREQ_TIMER0 <= treq < TREQ_TIMER0 + TIMERS
  }

  /** dma_treq_ready. */
  predicate TreqReady(c: Chip, treq: nat)
    requires c.Valid()
  {
    if treq == TREQ_FORCE then true
    else if IsTimer(treq) then c.dma.timer[treq - TREQ_TIMER0].credit
    else if treq % 8 >= 4 then RxHasWord(c, treq / 8, treq % 4)
    else TxHasRoom(c, treq / 8, treq % 4)
  }

  /** dma_endpoints_ready: sources supply, destinations accept. */
  predicate CanRead(c: Chip, a: Addr)
    requires c.Valid()
  {
    match a
    case Mem(ptr) => ptr.Some?
    case Rxf(pio, sm) => RxHasWord(c, pio, sm)
    case Txf(_, _) => false
  }

  predicate CanWrite(c: Chip, a: Addr)
    requires c.Valid()
  {
    match a
    case Mem(ptr) => ptr.Some?
    case Txf(pio, sm) => TxHasRoom(c, pio, sm)
    case Rxf(_, _) => false
  }

  /** dma_channel_ready. */
  predicate Ready(c: Chip, i: nat)
    requires c.Valid() && i < CHANNELS
  {
    var ch := c.dma.ch[i];
    ch.en && ch.busy && TreqReady(c, ch.ctrl.treq) && CanRead(c, ch.read) && CanWrite(c, ch.write)
  }

  // ---- one element ---------------------------------------------------------------

  function Bytes(size: SizeCode): (n: nat)
    ensures n == 1 || n == 2 || n == 4
  {
    if size == 0 then 1 else if size == 1 then 2 else 4
  }

  /** The `n` bytes at an address, lowest first. */
  function PeekBytes(m: Memory, a: nat, n: nat): (bs: seq<Byte>)
    ensures |bs| == n
  {
    if n == 0 then [] else PeekBytes(m, a, n - 1) + [Peek(m, a + n - 1)]
  }

  /** Store bytes from an address up. */
  function PokeBytes(m: Memory, a: nat, bs: seq<Byte>): Memory {
    if bs == [] then m else PokeBytes(m, a, bs[..|bs| - 1])[a + |bs| - 1 := bs[|bs| - 1]]
  }

  /** The low `n` bytes of an element, lowest first. */
  function Split(v: Word, n: nat): (bs: seq<Byte>)
    requires n <= 4
    ensures |bs| == n
  {
    if n == 0 then [] else Split(v, n - 1) + [ByteAt(v, n - 1)]
  }

  /** dma_bswap: reverse the bytes of a 16- or 32-bit element. */
  function Swap(v: Word, n: nat): Word {
    if n == 2 then (ByteAt(v, 1) + ByteAt(v, 0)) + Zeros(16)
    else if n == 4 then (ByteAt(v, 3) + ByteAt(v, 2)) + (ByteAt(v, 1) + ByteAt(v, 0))
    else v
  }

  /** Fetch an element of `n` bytes; popping a FIFO changes its state machine. */
  function ReadElement(c: Chip, a: Addr, n: nat): (r: (Word, Env))
    requires c.Valid() && CanRead(c, a) && n <= 4
    ensures SameShape(c.env, r.1)
  {
    match a
    case Mem(ptr) => (Element(PeekBytes(c.mem, ptr.value, n)), c.env)
    case Rxf(pio, sm) =>
      var g := FifoOwner(c, pio, sm).value;
      (c.env.sm[g].rx.Pop().1, PutSm(c.env, g, GetWord(c.env.sm[g])))
    case Txf(_, _) => (ZERO, c.env)
  }

  /** The start of the naturally aligned window of `size` bytes around `p`. */
  function WindowBase(p: nat, size: nat): (b: nat)
    requires size > 0
  {
    RemainderBelow(p, size);
    p - p % size
  }

  lemma RemainderBelow(p: nat, size: nat)
    requires size > 0
    ensures p % size <= p
  {
    if p < size { ModUnique(p, size, 0, p); }
  }

  function RingNext(p: nat, size: nat, n: nat): nat
    requires size > 0
  {
    WindowBase(p, size) + (p % size + n) % size
  }

  /** dma_advance: step a memory cursor, inside its ring if one applies. */
  function Advance(a: Addr, incr: bool, ringSize: nat, ringApplies: bool, n: nat): Addr {
    if a.Mem? && a.ptr.Some? && incr then
      if ringApplies && 0 < ringSize < POINTER_BITS then
        Mem(Some(RingNext(a.ptr.value, Pow2(ringSize), n)))
      else Mem(Some(a.ptr.value + n))
    else a
  }

  /** pio_dma_start_channel_mask: load counts and go busy; a zero count is a NULL
      trigger, which raises a quiet channel's interrupt. */
  function Start(d: Dma, mask: set<nat>): Dma {
    d.(ch := StartChannels(d.ch, mask), intr := d.intr + NullTriggers(d.ch, mask))
  }

  function StartChannel(ch: Channel): Channel {
    if ch.reload == 0 then ch else ch.(count := ch.reload, busy := true)
  }

  function StartChannels(chs: Channels, mask: set<nat>): Channels {
    seq<Channel>(CHANNELS, i requires 0 <= i < CHANNELS => if i in mask then StartChannel(chs[i]) else chs[i])
  }

  function NullTriggers(chs: Channels, mask: set<nat>): set<nat> {
    set i: nat | i < CHANNELS && i in mask && chs[i].reload == 0 && chs[i].ctrl.quiet
  }

  /** The 32-bit decrement of trans_count. */
  function CountDown(n: nat): nat {
    if n == 0 then 0xFFFF_FFFF else n - 1
  }

  /** Consume the timer credit that paced a transfer. */
  function SpendCredit(ts: Timers, treq: nat): Timers {
    if IsTimer(treq) then ts[treq - TREQ_TIMER0 := ts[treq - TREQ_TIMER0].(credit := false)] else ts
  }

  /** Bookkeeping after channel `i` moved an element: count, busy, INTR, chain. */
  function Complete(d: Dma, i: nat): Dma
    requires i < CHANNELS
  {
    var ch := d.ch[i];
    var n := CountDown(ch.count);
    if n != 0 then d.(ch := d.ch[i := ch.(count := n)])
    else
      var done := d.(ch := d.ch[i := ch.(count := 0, busy := false)],
                     intr := if ch.ctrl.quiet then d.intr else d.intr + {i});
      if ch.ctrl.chainTo != i && ch.ctrl.chainTo < CHANNELS then Start(done, {ch.ctrl.chainTo}) else done
  }

  /** The element as it leaves the byte swapper. */
  function Moved(ctrl: Ctrl, v: Word): Word {
    if ctrl.bswap then Swap(v, Bytes(ctrl.size)) else v
  }

  function SniffStep(s: Sniffer, ctrl: Ctrl, i: nat, v: Word): Sniffer {
    if s.en && ctrl.sniffEn && s.chan == i then s.(data := Sniff(s.mode, s.data, v, Bytes(ctrl.size))) else s
  }

  /** The channel with both cursors advanced. */
  function AdvanceBoth(ch: Channel): Channel {
    var n := Bytes(ch.ctrl.size);
    ch.(read := Advance(ch.read, ch.ctrl.incrRead, ch.ctrl.ringSize, !ch.ctrl.ringWrite, n),
        write := Advance(ch.write, ch.ctrl.incrWrite, ch.ctrl.ringSize, ch.ctrl.ringWrite, n))
  }

  /** dma_transfer_one of a channel that is ready. */
  function Transfer(c: Chip, i: nat): (r: Chip)
    requires c.Valid() && i < CHANNELS && Ready(c, i)
    ensures r.Valid() && r.dma.rrNext == c.dma.rrNext && r.dma.pio == c.dma.pio && SameShape(c.env, r.env)
  {
    var ch := c.dma.ch[i];
    var n := Bytes(ch.ctrl.size);
    var r := ReadElement(c, ch.read, n);
    var v := Moved(ch.ctrl, r.0);
    var d := c.dma.(sniff := SniffStep(c.dma.sniff, ch.ctrl, i, v),
                    timer := SpendCredit(c.dma.timer, ch.ctrl.treq),
                    ch := c.dma.ch[i := AdvanceBoth(ch)]);
    match ch.write
    case Mem(ptr) => Chip(r.1, PokeBytes(c.mem, ptr.value, Split(v, n)), Complete(d, i))
    case Txf(pio, sm) =>
      var g := FifoOwner(c, pio, sm).value;
      Chip(PutSm(r.1, g, PutWord(r.1.sm[g], v)), c.mem, Complete(d, i))
    case Rxf(_, _) => c
  }

  // ---- timers and arbitration -------------------------------------------------------

  /** One pacing timer's tick; a 32-bit phase accumulator, a level request. */
  function TimerTick(t: Timer): Timer {
    if t.den == 0 then t
    else
      var a := (t.accum + t.num) % 0x1_0000_0000;
      if a >= t.den then t.(accum := a - t.den, credit := true) else t.(accum := a)
  }

  function TimersTick(ts: Timers): Timers {
    seq<Timer>(TIMERS, i requires 0 <= i < TIMERS => TimerTick(ts[i]))
  }

  /** The channel `i` places after the round-robin seat. */
  function Seat(rr: nat, i: nat): (c: nat)
    requires rr < CHANNELS && i < CHANNELS
    ensures c < CHANNELS && c == (rr + i) % CHANNELS
  {
    if rr + i < CHANNELS then rr + i else rr + i - CHANNELS
  }

  /** The first member of `ready` at or after the seat plus `i`. */
  function Pick(rr: nat, ready: set<nat>, i: nat): (r: Option<nat>)
    requires rr < CHANNELS && i <= CHANNELS
    ensures r.Some? ==> r.value < CHANNELS && r.value in ready
    decreases CHANNELS - i
  {
    if i == CHANNELS then None
    else if Seat(rr, i) in ready then Some(Seat(rr, i))
    else Pick(rr, ready, i + 1)
  }

  /** High priority first, each class round-robin from the shared seat. */
  function Arbitrate(rr: nat, high: set<nat>, normal: set<nat>): (r: Option<nat>)
    requires rr < CHANNELS
    ensures r.Some? ==> r.value < CHANNELS && r.value in high + normal
  {
    var h := Pick(rr, high, 0);
    if h.Some? then h else Pick(rr, normal, 0)
  }

  function ReadyOf(c: Chip, high: bool): set<nat>
    requires c.Valid()
  {
    set i: nat | i < CHANNELS && c.dma.ch[i].ctrl.high == high && Ready(c, i)
  }

  function Choice(c: Chip): (r: Option<nat>)
    requires c.Valid()
    ensures r.Some? ==> r.value < CHANNELS && Ready(c, r.value)
  {
    Arbitrate(c.dma.rrNext, ReadyOf(c, true), ReadyOf(c, false))
  }

  function TickTimers(c: Chip): (r: Chip)
    requires c.Valid()
    ensures r.Valid()
  {
    c.(dma := c.dma.(timer := TimersTick(c.dma.timer)))
  }

  /** Serve a channel and move the seat just past it. */
  function Serve(c: Chip, i: nat): (r: Chip)
    requires c.Valid() && i < CHANNELS && Ready(c, i)
    ensures r.Valid() && r.dma.pio == c.dma.pio && SameShape(c.env, r.env)
  {
    var r := Transfer(c, i);
    r.(dma := r.dma.(rrNext := Seat(i, 1)))
  }

  /** pio_dma_tick. */
  function Tick(c: Chip): (r: Chip)
    requires c.Valid()
    ensures r.Valid() && r.dma.pio == c.dma.pio && SameShape(c.env, r.env)
  {
    var c1 := TickTimers(c);
    var i := Choice(c1);
    if i.None? then c1 else Serve(c1, i.value)
  }
}
