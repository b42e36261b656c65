/** A state machine updated in place: the shift-register and FIFO handlers write
    fields one by one, refining the handlers on values. */
module StateMachine {
  import opened Bits
  import opened FifoRing
  import opened Isa
  import opened Pads
  import opened Machine

  class Registers {
    var enabled: bool
    var cfg: SmConfig
    var x: Word
    var y: Word
    var osr: Word
    var isr: Word
    var osrCount: nat
    var isrCount: nat
    var outVal: Pins
    var outOe: Pins
    var wrote: Pins
    var dirDriven: Pins
    var statusOverride: bool
    var statusValue: Word
    var clkAccum: nat
    var delay: nat
    var stalled: bool
    var execPending: bool
    var execInsn: Insn
    var fdebug: Fdebug
    const tx: Ring
    const rx: Ring

    /** The FIFOs are two rings of their own. */
    ghost predicate Valid()
      reads this, tx, tx.buf, rx, rx.buf
    {
      tx.Valid() && rx.Valid() && tx != rx && tx.buf != rx.buf
    }

    /** The record as a value. */
    ghost function Snapshot(): Sm
      requires Valid()
      reads this, tx, tx.buf, rx, rx.buf
    {
      Sm(enabled, cfg, x, y, osr, isr, osrCount, isrCount, outVal, outOe, wrote, dirDriven, statusOverride,
         statusValue, clkAccum, delay, stalled, execPending, execInsn, fdebug, tx.View(), rx.View())
    }

    constructor (sm: Sm)
      ensures Valid() && Snapshot() == sm
      ensures fresh(tx) && fresh(tx.buf) && fresh(rx) && fresh(rx.buf)
    {
      enabled, cfg, x, y, osr, isr := sm.enabled, sm.cfg, sm.x, sm.y, sm.osr, sm.isr;
      osrCount, isrCount, outVal, outOe := sm.osrCount, sm.isrCount, sm.outVal, sm.outOe;
      wrote, dirDriven, statusOverride, statusValue := sm.wrote, sm.dirDriven, sm.statusOverride, sm.statusValue;
      clkAccum, delay, stalled := sm.clkAccum, sm.delay, sm.stalled;
      execPending, execInsn, fdebug := sm.execPending, sm.execInsn, sm.fdebug;
      tx := new Ring.Of(sm.tx);
      rx := new Ring.Of(sm.rx);
    }

    /** osr_refill. */
    method RefillOsr() returns (ok: bool)
      requires Valid()
      modifies tx, this`osr, this`osrCount
      ensures Valid()
      ensures Snapshot() == Refill(old(Snapshot())) && ok == !old(tx.Empty())
    {
      var v;
      v, ok := tx.Pop();
      if !ok { return; }
      osr := v;
      osrCount := 0;
      return true;
    }

    /** isr_drain. */
    method DrainIsr() returns (ok: bool)
      requires Valid()
      modifies rx, rx.buf, this`isr, this`isrCount
      ensures Valid()
      ensures ok == !old(rx.Full())
      ensures Snapshot() == if ok then Drain(old(Snapshot())) else old(Snapshot())
    {
      ok := rx.Push(isr);
      if !ok { return; }
      isr := ZERO;
      isrCount := 0;
      return true;
    }

    /** Shift `count` bits into the ISR. */
    method ShiftBits(v: Word, count: nat)
      requires Valid()
      requires 1 <= count <= 32
      modifies this`isr, this`isrCount
      ensures Valid()
      ensures Snapshot() == InShifted(old(Snapshot()), v, count)
      ensures isrCount == Clamp32(old(isrCount) + count)
    {
      hide ShiftIn;
      isr := ShiftIn(cfg.inDir, isr, v, count);
      isrCount := isrCount + count;
      if isrCount > 32 { isrCount := 32; }
    }

    /** exec_in, given the source value; true means it stalled. */
    method In(v: Word, count: nat) returns (stall: bool)
      requires Valid()
      requires 1 <= count <= 32
      modifies this`fdebug, this`isr, this`isrCount, rx, rx.buf
      ensures Valid()
      ensures (Snapshot(), stall) == InSm(old(Snapshot()), v, count)
    {
      hide InShifted, Drain;
      var willPush := cfg.autopush && isrCount + count >= cfg.pushThresh;
      if willPush && (RegisterFile(cfg.join) || rx.Full()) {
        fdebug := fdebug.(rxStall := true);
        return true;
      }
      ShiftBits(v, count);
      if cfg.autopush && isrCount >= cfg.pushThresh { var _ := DrainIsr(); }
      return false;
    }

    /** Take `count` bits off the OSR in shift order. */
    method ShiftOsr(count: nat) returns (v: Word)
      requires Valid()
      requires 1 <= count <= 32
      modifies this`osr
      ensures Valid()
      ensures v == ShiftOutValue(cfg.outDir, old(osr), count) && osr == ShiftOutRest(cfg.outDir, old(osr), count)
    {
      hide Low, Shr, Shl;
      if cfg.outDir == Right {
        v := Low(osr, count);
        osr := if count == 32 then ZERO else Shr(osr, count);
      } else {
        v := if count == 32 then osr else Low(Shr(osr, 32 - count), count);
        osr := if count == 32 then ZERO else Shl(osr, count);
      }
    }

    /** Take the bits of an OUT and count them. */
    method TakeBits(count: nat) returns (v: Word)
      requires Valid()
      requires 1 <= count <= 32
      modifies this`osr, this`osrCount
      ensures Valid()
      ensures v == ShiftOutValue(cfg.outDir, old(osr), count) && Snapshot() == OutShifted(old(Snapshot()), count)
    {
      hide ShiftOutValue, ShiftOutRest;
      v := ShiftOsr(count);
      osrCount := osrCount + count;
      if osrCount > 32 { osrCount := 32; }
    }

    /** exec_out up to its destination: the bits taken, or a stall. */
    method Out(count: nat) returns (v: Word, stall: bool)
      requires Valid()
      requires 1 <= count <= 32
      modifies this`fdebug, this`osr, this`osrCount
      ensures Valid()
      ensures stall == (cfg.autopull && old(osrCount) >= cfg.pullThresh)
      ensures stall ==> Snapshot() == old(Snapshot()).(fdebug := old(fdebug).(txStall := true))
      ensures !stall ==> v == ShiftOutValue(cfg.outDir, old(osr), count) && Snapshot() == OutShifted(old(Snapshot()), count)
    {
      hide ShiftOutValue, OutShifted;
      if cfg.autopull && osrCount >= cfg.pullThresh {
        fdebug := fdebug.(txStall := true);
        return ZERO, true;
      }
      v := TakeBits(count);
      return v, false;
    }

    /** A PUSH that finds no room: stall, or drop the ISR. */
    method PushBlocked(block: bool) returns (stall: bool)
      requires Valid()
      modifies this`fdebug, this`isr, this`isrCount
      ensures Valid()
      ensures stall == block && fdebug == old(fdebug).(rxStall := true)
      ensures isr == (if block then old(isr) else ZERO) && isrCount == if block then old(isrCount) else 0
    {
      fdebug := fdebug.(rxStall := true);
      if !block {
        isr := ZERO;
        isrCount := 0;
      }
      return block;
    }

    /** exec_pushpull, PUSH half. */
    method Push(ifFull: bool, block: bool) returns (stall: bool)
      requires Valid()
      modifies this`fdebug, this`isr, this`isrCount, rx, rx.buf
      ensures Valid()
      ensures (Snapshot(), stall) == PushSm(old(Snapshot()), ifFull, block)
    {
      hide Drain, RegisterFile;
      if ifFull && isrCount < cfg.pushThresh { return false; }
      stall := PushNow(block);
    }

    /** A PUSH that passed its guard. */
    method PushNow(block: bool) returns (stall: bool)
      requires Valid()
      modifies this`fdebug, this`isr, this`isrCount, rx, rx.buf
      ensures Valid()
      ensures (Snapshot(), stall) == PushSm(old(Snapshot()), false, block)
    {
      hide Drain, RegisterFile;
      if RegisterFile(cfg.join) || rx.Full() {
        stall := PushBlocked(block);
        return;
      }
      var _ := DrainIsr();
      return false;
    }

    /** A PULL that finds TX empty: stall, or take X. */
    method PullBlocked(block: bool) returns (stall: bool)
      requires Valid()
      modifies this`fdebug, this`osr, this`osrCount
      ensures Valid()
      ensures stall == block && fdebug == old(fdebug).(txStall := true)
      ensures osr == (if block then old(osr) else x) && osrCount == if block then old(osrCount) else 0
    {
      fdebug := fdebug.(txStall := true);
      if !block {
        osr := x;
        osrCount := 0;
      }
      return block;
    }

    /** exec_pushpull, PULL half. */
    method Pull(ifEmpty: bool, block: bool) returns (stall: bool)
      requires Valid()
      modifies this`fdebug, this`osr, this`osrCount, tx
      ensures Valid()
      ensures (Snapshot(), stall) == PullSm(old(Snapshot()), ifEmpty, block)
    {
      hide Refill;
      if ifEmpty && osrCount < cfg.pullThresh { return false; }
      if cfg.autopull && osrCount == 0 { return false; }
      stall := PullNow(block);
    }

    /** A PULL that passed its guards. */
    method PullNow(block: bool) returns (stall: bool)
      requires Valid() && !(cfg.autopull && osrCount == 0)
      modifies this`fdebug, this`osr, this`osrCount, tx
      ensures Valid()
      ensures (Snapshot(), stall) == PullSm(old(Snapshot()), false, block)
    {
      hide Refill;
      if tx.Empty() {
        stall := PullBlocked(block);
        return;
      }
      var _ := RefillOsr();
      return false;
    }

    /** exec_mov_rxfifo, `mov osr, rxfifo[i]`. */
    method MovFromRxFifo(literal: bool, idx: nat)
      requires Valid()
      requires idx < 4
      modifies this`osr, this`osrCount
      ensures Valid()
      ensures Snapshot() == RxFifoSm(old(Snapshot()), true, literal, idx)
    {
      hide ToNat;
      var i := if literal then idx else ToNat(y[..2]) % 4;
      if !cfg.join.JoinRxGet? && !cfg.join.JoinRxPutGet? { return; }
      osr := rx.buf[i];
      osrCount := 0;
    }

    /** exec_mov_rxfifo, `mov rxfifo[i], isr`. */
    method MovToRxFifo(literal: bool, idx: nat)
      requires Valid()
      requires idx < 4
      modifies this`isr, this`isrCount, rx, rx.buf
      ensures Valid()
      ensures Snapshot() == RxFifoSm(old(Snapshot()), false, literal, idx)
    {
      hide ToNat;
      var i := if literal then idx else ToNat(y[..2]) % 4;
      if !cfg.join.JoinRxPut? && !cfg.join.JoinRxPutGet? { return; }
      StoreRx(i);
    }

    /** Write one register-file entry from the ISR and empty the ISR. */
    method StoreRx(i: nat)
      requires Valid()
      requires i < 4
      modifies this`isr, this`isrCount, rx, rx.buf
      ensures Valid()
      ensures rx.View() == old(rx.View()).(buf := old(rx.View()).buf[i := old(isr)]) && isr == ZERO && isrCount == 0
    {
      rx.Store(i, isr);
      isr := ZERO;
      isrCount := 0;
    }

    /** Background autopull at the top of a cycle. */
    method TopUp()
      requires Valid()
      modifies this`osr, this`osrCount, tx
      ensures Valid()
      ensures Snapshot() == Autopull(old(Snapshot()))
    {
      hide Refill;
      if cfg.autopull && osrCount >= cfg.pullThresh { var _ := RefillOsr(); }
    }

    /** The end of sm_cycle: stall, or commit with its delay. */
    method Commit(stall: bool, fromExec: bool, d: nat)
      requires Valid()
      modifies this`stalled, this`execPending, this`delay
      ensures Valid()
      ensures Snapshot() == Retire(old(Snapshot()), stall, fromExec, d)
    {
      hide Ring.View, Fifo.Valid;
      if stall {
        stalled := true;
        return;
      }
      stalled := false;
      if fromExec {
        execPending := false;
        delay := d;
      } else {
        delay := if execPending then 0 else d;
      }
    }
  }
}
