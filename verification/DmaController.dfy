/** The DMA controller updated in place: loops over timers, channels, bytes and
    arbitration passes, refining the controller on values. */
module DmaController {
  import opened Bits
  import opened Crc
  import opened Options
  import opened Machine
  import opened Runs
  import opened Dma
  import DmaChain

  class Controller {
    var env: Env
    var mem: Memory
    var ch: array<Channel>
    var timer: array<Timer>
    var pio: seq<Option<nat>>
    var sniff: Sniffer
    var intr: set<nat>
    var rrNext: nat

    ghost predicate Sized()
      reads this, ch, timer
    {
      ch.Length == CHANNELS && timer.Length == TIMERS
    }

    /** The controller, its blocks and memory as a value. */
    function Snapshot(): Chip
      requires Sized()
      reads this, ch, timer
    {
      Chip(env, mem, Dma(ch[..], pio, timer[..], sniff, intr, rrNext))
    }

    ghost predicate Valid()
      reads this, ch, timer
    {
      Sized() && Snapshot().Valid()
    }

    /** dma_timers_tick. */
    method AdvanceTimers()
      requires Valid()
      modifies timer
      ensures Valid() && Snapshot() == TickTimers(old(Snapshot()))
    {
      ghost var ts := timer[..];
      hide TimerTick;
      for t := 0 to TIMERS
        invariant Sized()
        invariant forall k :: 0 <= k < TIMERS ==> timer[k] == if k < t then TimerTick(ts[k]) else ts[k]
      {
        TickOne(t);
      }
      assert timer[..] == TimersTick(ts);
    }

    /** One timer: accumulate, and raise the level request on a wrap. */
    method TickOne(t: nat)
      requires Sized() && t < TIMERS
      modifies timer
      ensures Sized() && timer[t] == TimerTick(old(timer[t]))
      ensures forall k :: 0 <= k < TIMERS && k != t ==> timer[k] == old(timer[k])
    {
      if timer[t].den == 0 { return; }
      timer[t] := timer[t].(accum := (timer[t].accum + timer[t].num) % 0x1_0000_0000);
      if timer[t].accum >= timer[t].den {
        timer[t] := timer[t].(accum := timer[t].accum - timer[t].den, credit := true);
      }
    }

    /** pio_dma_start_channel_mask. */
    method StartMask(mask: set<nat>)
      requires Valid()
      modifies ch, this`intr
      ensures Valid() && Snapshot() == old(Snapshot()).(dma := Start(old(Snapshot()).dma, mask))
    {
      ghost var cs, raised := ch[..], intr;
      for i := 0 to CHANNELS
        invariant Sized()
        invariant forall k :: 0 <= k < CHANNELS ==> ch[k] == if k < i && k in mask then StartChannel(cs[k]) else cs[k]
        invariant intr == raised + set k: nat | k < i && k in mask && cs[k].reload == 0 && cs[k].ctrl.quiet
      {
        if i in mask {
          if ch[i].reload == 0 {
            if ch[i].ctrl.quiet { intr := intr + {i}; }
          } else {
            ch[i] := ch[i].(count := ch[i].reload, busy := true);
          }
        }
      }
      assert ch[..] == StartChannels(cs, mask);
      assert intr == raised + NullTriggers(cs, mask);
    }

    /** Assemble the bytes of an element, lowest first. */
    method LoadBytes(a: nat, n: nat) returns (v: Word)
      requires n <= 4
      ensures v == Element(PeekBytes(mem, a, n))
    {
      var bs: seq<Byte> := [];
      for i := 0 to n
        invariant bs == PeekBytes(mem, a, i)
      {
        bs := bs + [Peek(mem, a + i)];
      }
      v := Element(bs);
    }

    /** Store the low bytes of an element, lowest first. */
    method StoreBytes(a: nat, v: Word, n: nat)
      requires n <= 4
      modifies this`mem
      ensures mem == PokeBytes(old(mem), a, Split(v, n))
    {
      for i := 0 to n
        invariant mem == PokeBytes(old(mem), a, Split(v, i))
      {
        mem := mem[a + i := ByteAt(v, i)];
        assert Split(v, i + 1)[..i] == Split(v, i);
      }
    }

    /** Fetch an element: memory bytes, or a FIFO pop. */
    method Fetch(a: Addr, n: nat) returns (v: Word)
      requires Valid() && CanRead(Snapshot(), a) && n <= 4
      modifies this`env
      ensures Sized() && SameShape(old(env), env)
      ensures var r := ReadElement(old(Snapshot()), a, n); v == r.0 && env == r.1
    {
      if a.Mem? {
        v := LoadBytes(a.ptr.value, n);
      } else {
        var g := FifoOwner(Snapshot(), a.pio, a.sm).value;
        v := env.sm[g].rx.Pop().1;
        env := PutSm(env, g, GetWord(env.sm[g]));
      }
    }

    /** Deliver an element: memory bytes, or a FIFO push. */
    method Deliver(a: Addr, v: Word, n: nat)
      requires Valid() && !a.Rxf? && n <= 4 && (a.Mem? ==> a.ptr.Some?)
      requires a.Txf? ==> FifoOwner(Snapshot(), a.pio, a.sm).Some?
      modifies this`env, this`mem
      ensures Sized()
      ensures a.Mem? ==> env == old(env) && mem == PokeBytes(old(mem), a.ptr.value, Split(v, n))
      ensures a.Txf? ==> mem == old(mem) && var g := FifoOwner(old(Snapshot()), a.pio, a.sm).value;
                         env == PutSm(old(env), g, PutWord(old(env).sm[g], v))
    {
      if a.Mem? {
        StoreBytes(a.ptr.value, v, n);
      } else {
        var g := FifoOwner(Snapshot(), a.pio, a.sm).value;
        env := PutSm(env, g, PutWord(env.sm[g], v));
      }
    }

    /** Count down; on the last element go idle, interrupt and chain. */
    method Finish(i: nat)
      requires Valid() && i < CHANNELS
      modifies ch, this`intr
      ensures Sized() && Snapshot() == old(Snapshot()).(dma := Complete(old(Snapshot()).dma, i))
    {
      hide Start;
      ghost var d := Snapshot().dma;
      ch[i] := ch[i].(count := CountDown(ch[i].count));
      assert ch[..] == d.ch[i := d.ch[i].(count := CountDown(d.ch[i].count))];
      if ch[i].count == 0 {
        ch[i] := ch[i].(busy := false);
        assert ch[..] == d.ch[i := d.ch[i].(count := 0, busy := false)];
        if !ch[i].ctrl.quiet { intr := intr + {i}; }
        if ch[i].ctrl.chainTo != i && ch[i].ctrl.chainTo < CHANNELS { StartMask({ch[i].ctrl.chainTo}); }
      }
    }

    /** The state updates between delivery and the countdown. */
    method Account(i: nat, v: Word)
      requires Sized() && i < CHANNELS
      modifies ch, timer, this`sniff
      ensures Sized()
      ensures var d := old(Snapshot()).dma;
              var c := d.ch[i];
              Snapshot() == old(Snapshot()).(dma := d.(sniff := SniffStep(d.sniff, c.ctrl, i, v),
                                                       timer := SpendCredit(d.timer, c.ctrl.treq),
                                                       ch := d.ch[i := AdvanceBoth(c)]))
    {
      hide Advance, Sniff;
      ghost var d := Snapshot().dma;
      var c := ch[i].ctrl;
      if sniff.en && c.sniffEn && sniff.chan == i { sniff := sniff.(data := Sniff(sniff.mode, sniff.data, v, Bytes(c.size))); }
      var n := Bytes(c.size);
      ch[i] := ch[i].(read := Advance(ch[i].read, c.incrRead, c.ringSize, !c.ringWrite, n));
      ch[i] := ch[i].(write := Advance(ch[i].write, c.incrWrite, c.ringSize, c.ringWrite, n));
      assert ch[..] == d.ch[i := AdvanceBoth(d.ch[i])];
      if IsTimer(c.treq) {
        var t := c.treq - TREQ_TIMER0;
        timer[t] := timer[t].(credit := false);
      }
      assert timer[..] == SpendCredit(d.timer, c.treq);
    }

    /** dma_transfer_one. */
    method TransferOne(i: nat)
      requires Valid() && i < CHANNELS && Ready(Snapshot(), i)
      modifies this, ch, timer
      ensures ch == old(ch) && timer == old(timer) && Valid() && Snapshot() == Transfer(old(Snapshot()), i)
    {
      hide Ready, CanRead, CanWrite, ReadElement, PokeBytes, Split, SniffStep, SpendCredit, AdvanceBoth, Complete, PutWord, Transfer, Swap;
      ghost var c0 := Snapshot();
      DmaChain.ReadyRoutes(c0, i);
      TransferParts(c0, i);
      var c := ch[i];
      var n := Bytes(c.ctrl.size);
      DestinationReady(c0, c.write);
      var v := Fetch(c.read, n);
      if c.ctrl.bswap { v := Swap(v, n); }
      SameOwner(c0, Snapshot(), c.write);
      Deliver(c.write, v, n);
      Account(i, v);
      Finish(i);
    }

    /** pio_dma_tick: timers, then two passes round the channels from the shared
        seat; true if an element moved. */
    method RunTick() returns (moved: bool)
      requires Valid()
      modifies this, ch, timer
      ensures Valid() && Snapshot() == Tick(old(Snapshot()))
      ensures moved == Choice(TickTimers(old(Snapshot()))).Some?
    {
      hide Transfer, Ready, TimersTick;
      AdvanceTimers();
      ghost var c1 := Snapshot();
      for pass := 0 to 2
        invariant Valid() && Snapshot() == c1 && ch == old(ch) && timer == old(timer)
        invariant pass >= 1 ==> Pick(rrNext, ReadyOf(c1, true), 0).None?
        invariant pass >= 2 ==> Pick(rrNext, ReadyOf(c1, false), 0).None?
      {
        var high := pass == 0;
        var found := Scan(high);
        if found.Some? {
          TransferOne(found.value);
          rrNext := Seat(found.value, 1);
          return true;
        }
      }
      return false;
    }

    /** The inner loop: the first ready channel of a class, from the seat on. */
    method Scan(high: bool) returns (r: Option<nat>)
      requires Valid()
      ensures r == Pick(rrNext, ReadyOf(Snapshot(), high), 0)
    {
      hide Ready;
      for i := 0 to CHANNELS
        invariant Pick(rrNext, ReadyOf(Snapshot(), high), 0) == Pick(rrNext, ReadyOf(Snapshot(), high), i)
      {
        var c := Seat(rrNext, i);
        if ch[c].ctrl.high == high && Ready(Snapshot(), c) { return Some(c); }
      }
      return None;
    }
  }

  /** A transfer, by the kind of its destination. */
  lemma TransferParts(c: Chip, i: nat)
    requires c.Valid() && i < CHANNELS && Ready(c, i)
    requires CanRead(c, c.dma.ch[i].read) && CanWrite(c, c.dma.ch[i].write) && !c.dma.ch[i].write.Rxf?
    ensures var ch := c.dma.ch[i];
            var n := Bytes(ch.ctrl.size);
            var r := ReadElement(c, ch.read, n);
            var v := if ch.ctrl.bswap then Swap(r.0, n) else r.0;
            var d := c.dma.(sniff := SniffStep(c.dma.sniff, ch.ctrl, i, v),
                            timer := SpendCredit(c.dma.timer, ch.ctrl.treq),
                            ch := c.dma.ch[i := AdvanceBoth(ch)]);
            var g := if ch.write.Txf? then FifoOwner(c, ch.write.pio, ch.write.sm) else None;
            && (ch.write.Mem? ==> ch.write.ptr.Some?) && (ch.write.Txf? ==> g.Some?)
            && Transfer(c, i) ==
                 if ch.write.Mem? then Chip(r.1, PokeBytes(c.mem, ch.write.ptr.value, Split(v, n)), Complete(d, i))
                 else Chip(PutSm(r.1, g.value, PutWord(r.1.sm[g.value], v)), c.mem, Complete(d, i))
  {
    hide Ready, CanRead, ReadElement, PokeBytes, Split, SniffStep, SpendCredit, AdvanceBoth, Complete, PutWord, Swap;
  }

  lemma SameOwner(c: Chip, r: Chip, a: Addr)
    requires c.Valid() && SameShape(c.env, r.env) && r.dma == c.dma
    ensures r.Valid() && (a.Txf? ==> FifoOwner(r, a.pio, a.sm) == FifoOwner(c, a.pio, a.sm))
  {
  }

  lemma DestinationReady(c: Chip, a: Addr)
    requires c.Valid() && CanWrite(c, a)
    ensures !a.Rxf? && (a.Mem? ==> a.ptr.Some?) && (a.Txf? ==> FifoOwner(c, a.pio, a.sm).Some?)
  {
  }
}
