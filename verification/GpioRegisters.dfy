/** The pad registers updated in place, as the register file of the source does. */
module GpioRegisters {
  import opened Pads
  import opened PinMask
  import opened Gpio

  class Registers {
    var funcsel: array<nat>
    var masks: array<Mask>
    var away: Mask
    var pio: Latches
    var ext: External
    var pad: PadRegs
    var isol: Isolation
    var per: Periph
    var over: Overs

    ghost predicate Valid()
      reads this, funcsel, masks
    {
      funcsel.Length == NUM_PINS && masks.Length == NUM_PIO
    }

    /** The register values. */
    ghost function Snapshot(): (b: Bank)
      requires Valid()
      reads this, funcsel, masks
      ensures b.mux.Valid()
    {
      Bank(pio, ext, pad, isol, Mux(funcsel[..], masks[..], away), per, over)
    }

    /** pio_pads_init_defaults. */
    constructor ()
      ensures Valid() && Snapshot() == Initial() && fresh(funcsel) && fresh(masks)
    {
      funcsel := new nat[NUM_PINS](i => FUNC_ANY_PIO);
      masks := new Mask[NUM_PIO](i => Inv(0));
      away := 0;
      pio, ext, pad := Latches(0, 0, 0, 0, 0), External(0, 0), PadRegs(Inv(0), 0, 0, 0, 0);
      isol, per := Isolation(0, 0, 0), Periph(0, 0);
      over := Overs(Over(0, 0, 0), Over(0, 0, 0), Over(0, 0, 0));
      new;
      assert funcsel[..] == InitialFunc(NUM_PINS);
      assert masks[..] == [Inv(0), Inv(0), Inv(0)];
    }

    /** Zero every owner's cache. */
    method ClearMasks()
      requires Valid()
      modifies masks
      ensures Valid() && forall k :: 0 <= k < NUM_PIO ==> masks[k] == 0
    {
      for o := 0 to NUM_PIO
        invariant forall k :: 0 <= k < o ==> masks[k] == 0
      {
        masks[o] := 0;
      }
    }

    /** The inner loop: an any-PIO pin goes into every owner's cache. */
    method RouteEverywhere(bit: Mask)
      requires Valid()
      modifies masks
      ensures Valid() && forall k :: 0 <= k < NUM_PIO ==> masks[k] == Or(old(masks[k]), bit)
    {
      hide Or;
      for o := 0 to NUM_PIO
        invariant forall k :: 0 <= k < NUM_PIO ==> masks[k] == if k < o then Or(old(masks[k]), bit) else old(masks[k])
      {
        masks[o] := Or(masks[o], bit);
      }
    }

    /** pio_pads_apply_funcsel without its final resolve: rebuild both caches with
        one pass over the pins. */
    method ApplyFuncsel()
      requires Valid()
      modifies this`away, masks
      ensures Valid() && Snapshot() == old(Snapshot()).(mux := Rerouted(old(funcsel[..])))
    {
      hide Or, PinBit, PinsOf, Bit, RoutesTo, RoutesAway;
      ClearMasks();
      away := 0;
      ghost var f := funcsel[..];
      for i := 0 to NUM_PINS
        invariant forall k :: 0 <= k < NUM_PIO ==> masks[k] == RouteMask(f, k, i)
        invariant away == AwayMask(f, i)
      {
        RoutePin(i);
      }
      assert masks[..] == Rerouted(f).masks;
    }

    /** One pin's bit goes into the caches its FUNCSEL names. */
    method RoutePin(i: nat)
      requires Valid() && i < NUM_PINS
      modifies this`away, masks
      ensures Valid()
      ensures forall k :: 0 <= k < NUM_PIO ==>
                masks[k] == if RoutesTo(funcsel[i], k) then Or(old(masks[k]), PinBit(i)) else old(masks[k])
      ensures away == if RoutesAway(funcsel[i]) then Or(old(away), PinBit(i)) else old(away)
    {
      hide Or, PinBit;
      var bit, v := PinBit(i), funcsel[i];
      if v == FUNC_ANY_PIO {
        RouteEverywhere(bit);
      } else if FUNC_PIO0 <= v < FUNC_PIO0 + NUM_PIO {
        masks[v - FUNC_PIO0] := Or(masks[v - FUNC_PIO0], bit);
      } else if v != FUNC_NULL {
        away := Or(away, bit);
      }
    }

    /** pio_sim_gpio_set_function; `dirs` and `levels` are what arbitration makes of
        the new routing. */
    method SetFunction(pin: nat, f: nat, dirs: Mask, levels: Mask)
      requires Valid()
      modifies this`away, this`pio, funcsel, masks
      ensures Valid() && Snapshot() == Update(old(Snapshot()), PadOp.SetFunction(pin, f, dirs, levels))
    {
      hide RouteMask, AwayMask;
      funcsel[PinIdx(pin)] := StoredFunc(f);
      assert funcsel[..] == old(funcsel[..])[PinIdx(pin) := StoredFunc(f)];
      ApplyFuncsel();
      pio := pio.(dirs := dirs, levels := levels);
    }

    /** pio_sim_pad_set_iso. */
    method SetIso(pin: nat, on: bool)
      requires Valid()
      modifies this`isol
      ensures Valid() && Snapshot() == Update(old(Snapshot()), PadOp.SetIso(pin, on))
    {
      hide Bit, SetBit, DriveOe, DriveLevel;
      var i := PinIdx(pin);
      if on && !Bit(isol.on, i) {
        var oe := CurrentOe();
        var level := CurrentLevel();
        isol := isol.(oe := SetBit(isol.oe, i, Bit(oe, i)));
        isol := isol.(levels := SetBit(isol.levels, i, Bit(level, i)));
      }
      isol := isol.(on := SetBit(isol.on, i, on));
    }

    /** The values pio_pads_chip_drive stores through its out-parameters. */
    method CurrentOe() returns (oe: Mask)
      requires Valid()
      ensures oe == DriveOe(Snapshot())
    {
      var none := Minus(And(per.oe, away), pio.dirs);
      oe := Or(pio.dirs, none);
      oe := Apply(over.oe, oe);
      oe := Minus(oe, pad.od);
      oe := Or(Minus(oe, isol.on), And(isol.oe, isol.on));
    }

    method CurrentLevel() returns (level: Mask)
      requires Valid()
      ensures level == DriveLevel(Snapshot())
    {
      var none := Minus(And(per.oe, away), pio.dirs);
      level := Or(And(pio.levels, pio.dirs), And(per.levels, none));
      level := Apply(over.out, level);
      level := Or(Minus(level, isol.on), And(isol.levels, isol.on));
    }

    method SetOutOver(pin: nat, force: Force)
      requires Valid()
      modifies this`over
      ensures Valid() && Snapshot() == Update(old(Snapshot()), PadOp.SetOutOver(pin, force))
    {
      hide SetOverride;
      over := over.(out := SetOverride(over.out, PinIdx(pin), force));
    }

    method SetPulls(pin: nat, up: bool, down: bool)
      requires Valid()
      modifies this`pad
      ensures Valid() && Snapshot() == Update(old(Snapshot()), PadOp.SetPulls(pin, up, down))
    {
      hide SetBit;
      pad := pad.(pue := SetBit(pad.pue, PinIdx(pin), up));
      pad := pad.(pde := SetBit(pad.pde, PinIdx(pin), down));
    }

    /** pio_sim_pads_reset_hw. */
    method ResetHw()
      requires Valid()
      modifies this`pad, this`isol
      ensures Valid() && Snapshot() == Update(old(Snapshot()), PadOp.ResetHw)
    {
      pad := PadRegs(Inv(0), 0, 0, Inv(0), 0);
      isol := Isolation(Inv(0), 0, 0);
    }

    /** pio_sim_gpio_get_outover reads back what was written. */
    method GetOutOver(pin: nat) returns (f: Force)
      requires Valid()
      ensures f == GetOverride(OverAt(Snapshot().over.out, PinIdx(pin)))
    {
      var i := PinIdx(pin);
      if Bit(over.out.high, i) { return High; }
      if Bit(over.out.low, i) { return Low; }
      if Bit(over.out.inv, i) { return Invert; }
      return Normal;
    }
  }
}
