/** The pad model: electrical state per GPIO, the drive pipeline from the PIO's
    resolved output to the level a state machine samples, and the arbitration
    among state machines. A 64-bit pin mask is the set of its one bits. */
module Pads {

  type Pins = set<nat>

  const NUM_PINS: nat := 48
  const NUM_PIO: nat := 3

  /** The pins routed to each owner slot. */
  type Routing = s: seq<Pins> | |s| == NUM_PIO witness [{}, {}, {}]

  /** Override masks of one IO_BANK0 field (INVERT / force LOW / force HIGH). */
  datatype Override = Override(inv: Pins, low: Pins, high: Pins)

  datatype Pads = Pads(
    levels: Pins, dirs: Pins,
    sync0: Pins, sync1: Pins, bypass: Pins,
    extDrive: Pins, extLevels: Pins,
    ie: Pins, od: Pins, pue: Pins, pde: Pins, keep: Pins,
    iso: Pins, isoLevels: Pins, isoOe: Pins,
    funcMask: Routing, periphSel: Pins, periphOe: Pins, periphLevel: Pins,
    outOver: Override, oeOver: Override, inOver: Override)

  function SymDiff(a: Pins, b: Pins): Pins {
    (a - b) + (b - a)
  }

  function ApplyOverride(o: Override, v: Pins): Pins {
    (SymDiff(v, o.inv) + o.high) - o.low
  }

  /** pio_pads_chip_drive: (output enable, level) presented to the pads. */
  function ChipDrive(p: Pads): (Pins, Pins) {
    var perOe := (p.periphOe * p.periphSel) - p.dirs;
    var lvl := ApplyOverride(p.outOver, (p.levels * p.dirs) + (p.periphLevel * perOe));
    var oe := ApplyOverride(p.oeOver, p.dirs + perOe) - p.od;
    ((oe - p.iso) + (p.isoOe * p.iso), (lvl - p.iso) + (p.isoLevels * p.iso))
  }

  /** pads_live: the level on each wire. */
  function Live(p: Pads): Pins {
    var (oe, lvl) := ChipDrive(p);
    var ext := p.extDrive - oe;
    (lvl * oe) + (p.extLevels * ext) + ((p.pue - p.pde) - oe - ext) + ((p.keep * p.pue * p.pde) - oe - ext)
  }

  /** pads_input_view: what feeds the input synchroniser. */
  function InputView(p: Pads): Pins {
    ApplyOverride(p.inOver, (Live(p) * p.ie) - p.iso)
  }

  /** What a state machine samples: the second synchroniser stage, or the live
      view on bypassed pins. */
  function Sampled(p: Pads): Pins {
    (p.sync1 - p.bypass) + (InputView(p) * p.bypass)
  }

  /** pads_update_keeper. */
  function UpdateKeeper(p: Pads): Pads {
    var (oe, lvl) := ChipDrive(p);
    var driven := oe + p.extDrive;
    var level := (lvl * oe) + ((p.extLevels * p.extDrive) - oe);
    p.(keep := (p.keep - driven) + (level * driven))
  }

  /** Clock the keeper and the two-stage synchroniser once. */
  function ClockInputs(p: Pads): Pads {
    var q := UpdateKeeper(p);
    q.(sync1 := q.sync0, sync0 := InputView(q))
  }

  // ---- arbitration -----------------------------------------------------------

  /** One state machine's bid for the pads, after the function mux: the pins it
      wrote this cycle, the pins whose direction it drives, and its registers. */
  datatype Claim = Claim(enabled: bool, written: Pins, driven: Pins, val: Pins, oe: Pins)

  /** Levels: later claims overwrite earlier ones on the pins they wrote. */
  function FoldLevels(cs: seq<Claim>, val: Pins): Pins {
    if cs == [] then val
    else
      var c := cs[|cs| - 1];
      (FoldLevels(cs[..|cs| - 1], val) - c.written) + (c.val * c.written)
  }

  /** Directions: one pass over the claims whose enable flag is `pass`. */
  function FoldDirs(cs: seq<Claim>, oe: Pins, pass: bool): Pins {
    if cs == [] then oe
    else
      var prev, c := FoldDirs(cs[..|cs| - 1], oe, pass), cs[|cs| - 1];
      if c.enabled == pass then (prev - c.driven) + (c.oe * c.driven) else prev
  }

  /** pio_pads_resolve: disabled claims first, enabled claims over them. */
  function Resolve(p: Pads, cs: seq<Claim>): Pads {
    p.(dirs := FoldDirs(cs, FoldDirs(cs, {}, false), true), levels := FoldLevels(cs, p.levels))
  }
}
