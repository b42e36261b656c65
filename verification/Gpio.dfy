/** The pad registers as 64-bit masks: the word-parallel drive pipeline, its
    per-pin meaning, and the register operations with their invariants. */
module Gpio {
  import opened Pads
  import opened PinMask

  datatype Over = Over(inv: Mask, low: Mask, high: Mask)

  /** What the arbitration last resolved, and the input synchroniser. */
  datatype Latches = Latches(levels: Mask, dirs: Mask, sync0: Mask, sync1: Mask, bypass: Mask)

  datatype External = External(drive: Mask, levels: Mask)

  datatype PadRegs = PadRegs(ie: Mask, od: Mask, pue: Mask, pde: Mask, keep: Mask)

  datatype Isolation = Isolation(on: Mask, levels: Mask, oe: Mask)

  /** The FUNCSEL table and its caches. */
  datatype Mux = Mux(funcsel: seq<nat>, masks: seq<Mask>, away: Mask) {
    predicate Valid() { |funcsel| == NUM_PINS && |masks| == NUM_PIO }
  }

  datatype Periph = Periph(oe: Mask, levels: Mask)

  datatype Overs = Overs(out: Over, oe: Over, inp: Over)

  datatype Bank = Bank(
    pio: Latches, ext: External, pad: PadRegs, isol: Isolation, mux: Mux, per: Periph, over: Overs)

  // ---- the pipeline on words -------------------------------------------------------

  function Apply(o: Over, v: Mask): Mask {
    Minus(Or(Xor(v, o.inv), o.high), o.low)
  }

  function Blend(a: Mask, b: Mask, sel: Mask): Mask {
    Or(Minus(a, sel), And(b, sel))
  }

  function PeriphDrive(b: Bank): Mask {
    Minus(And(b.per.oe, b.mux.away), b.pio.dirs)
  }

  /** pio_pads_chip_drive, output enable. */
  function DriveOe(b: Bank): Mask {
    Blend(Minus(Apply(b.over.oe, Or(b.pio.dirs, PeriphDrive(b))), b.pad.od), b.isol.oe, b.isol.on)
  }

  /** pio_pads_chip_drive, level. */
  function DriveLevel(b: Bank): Mask {
    Blend(Apply(b.over.out, Or(And(b.pio.levels, b.pio.dirs), And(b.per.levels, PeriphDrive(b)))), b.isol.levels, b.isol.on)
  }

  /** pads_live. */
  function LiveWord(b: Bank): Mask {
    var oe, lvl := DriveOe(b), DriveLevel(b);
    var ext := Minus(b.ext.drive, oe);
    var undriven := And(Inv(oe), Inv(ext));
    var keeper := And(And(b.pad.pue, b.pad.pde), undriven);
    var pullUp := And(Minus(b.pad.pue, b.pad.pde), undriven);
    Or(Or(Or(And(lvl, oe), And(b.ext.levels, ext)), pullUp), And(b.pad.keep, keeper))
  }

  /** pads_input_view. */
  function ViewWord(b: Bank): Mask {
    Apply(b.over.inp, Minus(And(LiveWord(b), b.pad.ie), b.isol.on))
  }

  /** pads_update_keeper. */
  function KeepWord(b: Bank): Mask {
    var oe, lvl := DriveOe(b), DriveLevel(b);
    var driven := Or(oe, b.ext.drive);
    var level := Or(And(lvl, oe), Minus(And(b.ext.levels, b.ext.drive), oe));
    Blend(b.pad.keep, level, driven)
  }

  // ---- one pin ------------------------------------------------------------------------

  datatype PinOver = PinOver(inv: bool, low: bool, high: bool)

  /** Everything the pads know about one pin. */
  datatype Pin = Pin(
    pioOe: bool, pioLevel: bool, routed: bool, perOe: bool, perLevel: bool,
    outOver: PinOver, oeOver: PinOver, inOver: PinOver,
    od: bool, iso: bool, isoOe: bool, isoLevel: bool,
    ie: bool, ext: bool, extLevel: bool, up: bool, down: bool, keep: bool)

  function OverAt(o: Over, i: nat): PinOver {
    PinOver(Bit(o.inv, i), Bit(o.low, i), Bit(o.high, i))
  }

  function PinAt(b: Bank, i: nat): Pin {
    Pin(Bit(b.pio.dirs, i), Bit(b.pio.levels, i), Bit(b.mux.away, i), Bit(b.per.oe, i), Bit(b.per.levels, i),
        OverAt(b.over.out, i), OverAt(b.over.oe, i), OverAt(b.over.inp, i),
        Bit(b.pad.od, i), Bit(b.isol.on, i), Bit(b.isol.oe, i), Bit(b.isol.levels, i),
        Bit(b.pad.ie, i), Bit(b.ext.drive, i), Bit(b.ext.levels, i), Bit(b.pad.pue, i), Bit(b.pad.pde, i), Bit(b.pad.keep, i))
  }

  /** The four override settings of an IO_BANK0 field. */
  datatype Force = Normal | Invert | Low | High

  function Forced(f: Force, v: bool): bool {
    match f
    case Normal => v
    case Invert => !v
    case Low => false
    case High => true
  }

  /** get_override. */
  function GetOverride(o: PinOver): Force {
    if o.high then High else if o.low then Low else if o.inv then Invert else Normal
  }

  predicate OneHot(o: PinOver) {
    !(o.high && o.low) && !(o.high && o.inv) && !(o.low && o.inv)
  }

  function ForceBits(o: PinOver, v: bool): bool {
    (v != o.inv || o.high) && !o.low
  }

  /** What the chip asks of the pad: the PIO if it drives, else the selected
      peripheral; overrides; output disable; isolation over everything. */
  function PinDrive(p: Pin): (r: (bool, bool)) {
    if p.iso then (p.isoOe, p.isoLevel)
    else
      var per := p.routed && p.perOe;
      var level := if p.pioOe then p.pioLevel else per && p.perLevel;
      (ForceBits(p.oeOver, p.pioOe || per) && !p.od, ForceBits(p.outOver, level))
  }

  /** The wire: the chip, else an external driver, else the bus keeper when both
      pulls are on, else the pull-up; a floating or pulled-down pin reads 0. */
  function PinWire(p: Pin): bool {
    if PinDrive(p).0 then PinDrive(p).1
    else if p.ext then p.extLevel
    else if p.up && p.down then p.keep
    else p.up
  }

  function PinView(p: Pin): bool {
    ForceBits(p.inOver, p.ie && !p.iso && PinWire(p))
  }

  /** The bus keeper: a driven pin's level, else what it held. */
  function PinKeep(p: Pin): bool {
    if PinDrive(p).0 then PinDrive(p).1 else if p.ext then p.extLevel else p.keep
  }

  lemma ApplyAt(o: Over, v: Mask, i: nat)
    requires i < 64
    ensures Bit(Apply(o, v), i) == ForceBits(OverAt(o, i), Bit(v, i))
  {
    hide Bit, And, Or, Xor, Minus;
    BitXor(v, o.inv, i);
    BitOr(Xor(v, o.inv), o.high, i);
    BitMinus(Or(Xor(v, o.inv), o.high), o.low, i);
  }

  lemma BlendAt(a: Mask, b: Mask, sel: Mask, i: nat)
    requires i < 64
    ensures Bit(Blend(a, b, sel), i) == if Bit(sel, i) then Bit(b, i) else Bit(a, i)
  {
    hide Bit, And, Or, Minus;
    BitMinus(a, sel, i);
    BitAnd(b, sel, i);
    BitOr(Minus(a, sel), And(b, sel), i);
  }

  lemma PeriphAt(b: Bank, i: nat)
    requires i < 64
    ensures Bit(PeriphDrive(b), i) == (Bit(b.per.oe, i) && Bit(b.mux.away, i) && !Bit(b.pio.dirs, i))
  {
    hide Bit, And, Minus;
    BitAnd(b.per.oe, b.mux.away, i);
    BitMinus(And(b.per.oe, b.mux.away), b.pio.dirs, i);
  }

  lemma OeAt(b: Bank, i: nat)
    requires i < 64
    ensures Bit(DriveOe(b), i) == PinDrive(PinAt(b, i)).0
  {
    hide Bit, And, Or, Minus, Apply, Blend, PeriphDrive;
    PeriphAt(b, i);
    var oe := Or(b.pio.dirs, PeriphDrive(b));
    BitOr(b.pio.dirs, PeriphDrive(b), i);
    ApplyAt(b.over.oe, oe, i);
    BitMinus(Apply(b.over.oe, oe), b.pad.od, i);
    BlendAt(Minus(Apply(b.over.oe, oe), b.pad.od), b.isol.oe, b.isol.on, i);
  }

  lemma LevelAt(b: Bank, i: nat)
    requires i < 64
    ensures Bit(DriveLevel(b), i) == PinDrive(PinAt(b, i)).1
  {
    hide Bit, And, Or, Minus, Apply, Blend, PeriphDrive;
    PeriphAt(b, i);
    var x, y := And(b.pio.levels, b.pio.dirs), And(b.per.levels, PeriphDrive(b));
    BitAnd(b.pio.levels, b.pio.dirs, i);
    BitAnd(b.per.levels, PeriphDrive(b), i);
    BitOr(x, y, i);
    ApplyAt(b.over.out, Or(x, y), i);
    BlendAt(Apply(b.over.out, Or(x, y)), b.isol.levels, b.isol.on, i);
  }

  lemma WireAt(b: Bank, i: nat)
    requires i < 64
    ensures Bit(LiveWord(b), i) == PinWire(PinAt(b, i))
  {
    hide Bit, And, Or, Inv, Minus, DriveOe, DriveLevel, PinDrive;
    var oe, lvl := DriveOe(b), DriveLevel(b);
    OeAt(b, i);
    LevelAt(b, i);
    var ext := Minus(b.ext.drive, oe);
    BitMinus(b.ext.drive, oe, i);
    var undriven := And(Inv(oe), Inv(ext));
    BitInv(oe, i);
    BitInv(ext, i);
    BitAnd(Inv(oe), Inv(ext), i);
    var keeper := And(And(b.pad.pue, b.pad.pde), undriven);
    BitAnd(b.pad.pue, b.pad.pde, i);
    BitAnd(And(b.pad.pue, b.pad.pde), undriven, i);
    var pullUp := And(Minus(b.pad.pue, b.pad.pde), undriven);
    BitMinus(b.pad.pue, b.pad.pde, i);
    BitAnd(Minus(b.pad.pue, b.pad.pde), undriven, i);
    BitAnd(lvl, oe, i);
    BitAnd(b.ext.levels, ext, i);
    BitAnd(b.pad.keep, keeper, i);
    var v := Or(And(lvl, oe), And(b.ext.levels, ext));
    BitOr(And(lvl, oe), And(b.ext.levels, ext), i);
    BitOr(v, pullUp, i);
    BitOr(Or(v, pullUp), And(b.pad.keep, keeper), i);
  }

  lemma ViewAt(b: Bank, i: nat)
    requires i < 64
    ensures Bit(ViewWord(b), i) == PinView(PinAt(b, i))
  {
    hide Bit, And, Minus, LiveWord, PinWire, Apply;
    WireAt(b, i);
    BitAnd(LiveWord(b), b.pad.ie, i);
    BitMinus(And(LiveWord(b), b.pad.ie), b.isol.on, i);
    ApplyAt(b.over.inp, Minus(And(LiveWord(b), b.pad.ie), b.isol.on), i);
  }

  lemma KeepAt(b: Bank, i: nat)
    requires i < 64
    ensures Bit(KeepWord(b), i) == PinKeep(PinAt(b, i))
  {
    hide Bit, And, Or, Minus, Blend, DriveOe, DriveLevel, PinDrive;
    var oe, lvl := DriveOe(b), DriveLevel(b);
    OeAt(b, i);
    LevelAt(b, i);
    BitOr(oe, b.ext.drive, i);
    BitAnd(lvl, oe, i);
    BitAnd(b.ext.levels, b.ext.drive, i);
    BitMinus(And(b.ext.levels, b.ext.drive), oe, i);
    var level := Or(And(lvl, oe), Minus(And(b.ext.levels, b.ext.drive), oe));
    BitOr(And(lvl, oe), Minus(And(b.ext.levels, b.ext.drive), oe), i);
    BlendAt(b.pad.keep, level, Or(oe, b.ext.drive), i);
  }

  /** The word-parallel pipeline computes the per-pin function on every pin. */
  lemma PipelineIsPerPin(b: Bank, i: nat)
    requires i < 64
    ensures var p := PinAt(b, i);
            && (Bit(DriveOe(b), i), Bit(DriveLevel(b), i)) == PinDrive(p)
            && Bit(LiveWord(b), i) == PinWire(p)
            && Bit(ViewWord(b), i) == PinView(p)
            && Bit(KeepWord(b), i) == PinKeep(p)
  {
    hide Bit, PinAt, DriveOe, DriveLevel, LiveWord, ViewWord, KeepWord, PinDrive, PinWire, PinView, PinKeep;
    OeAt(b, i);
    LevelAt(b, i);
    WireAt(b, i);
    ViewAt(b, i);
    KeepAt(b, i);
  }

  /** The masks do what the override getter reports iff LOW and HIGH are not both
      set: with both, the getter says HIGH and the pipeline drives low. */
  lemma OverrideHonouredIff(o: PinOver)
    ensures (forall v :: ForceBits(o, v) == Forced(GetOverride(o), v)) <==> !(o.low && o.high)
  {
    assert o.low && o.high ==> ForceBits(o, true) != Forced(GetOverride(o), true);
  }

  // ---- the set model ---------------------------------------------------------------------

  function OverPins(o: Over): Override {
    Override(PinsOf(o.inv), PinsOf(o.low), PinsOf(o.high))
  }

  function RoutingOf(b: Bank): Routing
    requires b.mux.Valid()
  {
    [PinsOf(b.mux.masks[0]), PinsOf(b.mux.masks[1]), PinsOf(b.mux.masks[2])]
  }

  /** The masks as the engine's pin sets. */
  function Abs(b: Bank): Pads
    requires b.mux.Valid()
  {
    Pads(PinsOf(b.pio.levels), PinsOf(b.pio.dirs), PinsOf(b.pio.sync0), PinsOf(b.pio.sync1), PinsOf(b.pio.bypass),
         PinsOf(b.ext.drive), PinsOf(b.ext.levels), PinsOf(b.pad.ie), PinsOf(b.pad.od), PinsOf(b.pad.pue), PinsOf(b.pad.pde),
         PinsOf(b.pad.keep), PinsOf(b.isol.on), PinsOf(b.isol.levels), PinsOf(b.isol.oe),
         RoutingOf(b), PinsOf(b.mux.away), PinsOf(b.per.oe), PinsOf(b.per.levels),
         OverPins(b.over.out), OverPins(b.over.oe), OverPins(b.over.inp))
  }

  function OverIn(o: Override, i: nat): PinOver {
    PinOver(i in o.inv, i in o.low, i in o.high)
  }

  function PinIn(p: Pads, i: nat): Pin {
    Pin(i in p.dirs, i in p.levels, i in p.periphSel, i in p.periphOe, i in p.periphLevel,
        OverIn(p.outOver, i), OverIn(p.oeOver, i), OverIn(p.inOver, i),
        i in p.od, i in p.iso, i in p.isoOe, i in p.isoLevels,
        i in p.ie, i in p.extDrive, i in p.extLevels, i in p.pue, i in p.pde, i in p.keep)
  }

  lemma OverrideIn(o: Override, v: Pins, i: nat)
    ensures i in ApplyOverride(o, v) <==> ForceBits(OverIn(o, i), i in v)
  {
  }

  /** The engine's set pipeline is the same per-pin function. */
  lemma SetDriveIsPerPin(p: Pads, i: nat)
    ensures (i in ChipDrive(p).0, i in ChipDrive(p).1) == PinDrive(PinIn(p, i))
  {
    hide ApplyOverride;
    var perOe := (p.periphOe * p.periphSel) - p.dirs;
    OverrideIn(p.outOver, (p.levels * p.dirs) + (p.periphLevel * perOe), i);
    OverrideIn(p.oeOver, p.dirs + perOe, i);
  }

  lemma SetPipelineIsPerPin(p: Pads, i: nat)
    ensures i in Live(p) <==> PinWire(PinIn(p, i))
    ensures i in InputView(p) <==> PinView(PinIn(p, i))
    ensures i in UpdateKeeper(p).keep <==> PinKeep(PinIn(p, i))
  {
    SetDriveIsPerPin(p, i);
    hide ChipDrive, PinDrive, ApplyOverride;
    assert i in Live(p) <==> PinWire(PinIn(p, i));
    OverrideIn(p.inOver, (Live(p) * p.ie) - p.iso, i);
    hide Live, PinWire;
  }

  lemma InPinsOf(m: Mask, i: nat)
    ensures i in PinsOf(m) <==> i < 64 && Bit(m, i)
  {
    hide Bit;
  }

  lemma SameOver(o: Over, i: nat)
    ensures OverIn(OverPins(o), i) == if i < 64 then OverAt(o, i) else PinOver(false, false, false)
  {
    hide Bit, PinsOf;
    InPinsOf(o.inv, i);
    InPinsOf(o.low, i);
    InPinsOf(o.high, i);
  }

  lemma SamePin(b: Bank, i: nat)
    requires b.mux.Valid() && i < 64
    ensures PinIn(Abs(b), i) == PinAt(b, i)
  {
    hide Bit, PinsOf, OverPins, OverAt, OverIn, RoutingOf;
    SameOver(b.over.out, i);
    SameOver(b.over.oe, i);
    SameOver(b.over.inp, i);
    forall m: Mask
      ensures i in PinsOf(m) <==> Bit(m, i)
    {
      InPinsOf(m, i);
    }
  }

  lemma NoPin(b: Bank, i: nat)
    requires b.mux.Valid() && i >= 64
    ensures var p := PinIn(Abs(b), i); !PinWire(p) && !PinView(p) && PinDrive(p) == (false, false)
  {
    hide Bit, PinsOf, OverPins, OverIn;
    SameOver(b.over.out, i);
    SameOver(b.over.oe, i);
    SameOver(b.over.inp, i);
    forall m: Mask
      ensures i !in PinsOf(m)
    {
      InPinsOf(m, i);
    }
  }

  /** The bit-parallel registers refine the engine's pin sets. */
  lemma WordsRefineSets(b: Bank)
    requires b.mux.Valid()
    ensures ChipDrive(Abs(b)).0 == PinsOf(DriveOe(b))
    ensures ChipDrive(Abs(b)).1 == PinsOf(DriveLevel(b))
    ensures Live(Abs(b)) == PinsOf(LiveWord(b))
    ensures InputView(Abs(b)) == PinsOf(ViewWord(b))
  {
    hide Bit, Abs, PinAt, PinIn, DriveOe, DriveLevel, LiveWord, ViewWord, KeepWord;
    hide ChipDrive, Live, InputView, UpdateKeeper, PinDrive, PinWire, PinView, PinKeep;
    forall i: nat
      ensures i in ChipDrive(Abs(b)).0 <==> i in PinsOf(DriveOe(b))
      ensures i in ChipDrive(Abs(b)).1 <==> i in PinsOf(DriveLevel(b))
      ensures i in Live(Abs(b)) <==> i in PinsOf(LiveWord(b))
      ensures i in InputView(Abs(b)) <==> i in PinsOf(ViewWord(b))
    {
      SetDriveIsPerPin(Abs(b), i);
      SetPipelineIsPerPin(Abs(b), i);
      if i < 64 { SamePin(b, i); PipelineIsPerPin(b, i); } else { NoPin(b, i); }
    }
  }

  // ---- register operations ------------------------------------------------------------------

  const FUNC_PIO0: nat := 6
  const FUNC_NULL: nat := 0x1F
  const FUNC_ANY_PIO: nat := 0xFF

  /** FUNCSEL value `f` lets owner slot `o` drive. */
  predicate RoutesTo(f: nat, o: nat) {
    f == FUNC_ANY_PIO || f == FUNC_PIO0 + o
  }

  /** FUNCSEL value `f` selects a non-PIO function. */
  predicate RoutesAway(f: nat) {
    f != FUNC_ANY_PIO && f != FUNC_NULL && !(FUNC_PIO0 <= f < FUNC_PIO0 + NUM_PIO)
  }

  /** The caches say what the FUNCSEL table says, on every physical pin. */
  ghost predicate CachesAgree(m: Mux)
    requires m.Valid()
  {
    forall i :: 0 <= i < NUM_PINS ==>
      (&& (forall o :: 0 <= o < NUM_PIO ==> (Bit(m.masks[o], i) <==> RoutesTo(m.funcsel[i], o)))
       && (Bit(m.away, i) <==> RoutesAway(m.funcsel[i])))
  }

  ghost predicate OverOneHot(o: Over) {
    forall i :: 0 <= i < 64 ==> OneHot(OverAt(o, i))
  }

  /** What every register operation keeps. */
  ghost predicate Sound(b: Bank) {
    && b.mux.Valid() && CachesAgree(b.mux)
    && OverOneHot(b.over.out) && OverOneHot(b.over.oe) && OverOneHot(b.over.inp)
  }

  /** Register writes by the host, and the pad updates the engine makes. */
  datatype PadOp =
    | SetFunction(pin: nat, f: nat, dirs: Mask, levels: Mask)   // and the resolve that follows
    | SetOutOver(pin: nat, force: Force)
    | SetOeOver(pin: nat, force: Force)
    | SetInOver(pin: nat, force: Force)
    | SetPeriph(pin: nat, oe: bool, level: bool)
    | SetInputEnable(pin: nat, on: bool)
    | SetOutputDisable(pin: nat, on: bool)
    | SetPulls(pin: nat, up: bool, down: bool)
    | SetIso(pin: nat, on: bool)
    | SetExternal(pin: nat, level: bool)
    | ReleaseExternal(pin: nat)
    | Resolved(dirs: Mask, levels: Mask)
    | ClockPads
    | ResetHw

  function PinIdx(pin: nat): (i: nat)
    ensures i < NUM_PINS
  {
    pin % NUM_PINS
  }

  /** set_override. */
  function SetOverride(o: Over, pin: nat, f: Force): Over {
    Over(SetBit(o.inv, pin, f == Invert), SetBit(o.low, pin, f == Low), SetBit(o.high, pin, f == High))
  }

  /** The pins below `n` whose FUNCSEL routes to owner slot `o`. */
  function RouteMask(funcsel: seq<nat>, o: nat, n: nat): Mask
    requires n <= |funcsel|
  {
    if n == 0 then 0
    else if RoutesTo(funcsel[n - 1], o) then Or(RouteMask(funcsel, o, n - 1), PinBit(n - 1))
    else RouteMask(funcsel, o, n - 1)
  }

  function AwayMask(funcsel: seq<nat>, n: nat): Mask
    requires n <= |funcsel|
  {
    if n == 0 then 0
    else if RoutesAway(funcsel[n - 1]) then Or(AwayMask(funcsel, n - 1), PinBit(n - 1))
    else AwayMask(funcsel, n - 1)
  }

  /** The caches pio_pads_apply_funcsel rebuilds. */
  function Rerouted(f: seq<nat>): (m: Mux)
    requires |f| == NUM_PINS
    ensures m.Valid() && m.funcsel == f
  {
    Mux(f, [RouteMask(f, 0, |f|), RouteMask(f, 1, |f|), RouteMask(f, 2, |f|)], AwayMask(f, |f|))
  }

  /** The stored FUNCSEL: five bits, or the any-PIO value. */
  function StoredFunc(f: nat): nat {
    if f == FUNC_ANY_PIO then f else f % 32
  }

  /** pio_sim_pad_set_iso: raising ISO latches the drive of that moment. */
  function Isolate(b: Bank, pin: nat, on: bool): Isolation {
    var s := b.isol;
    if on && !Bit(s.on, pin) then
      Isolation(SetBit(s.on, pin, true), SetBit(s.levels, pin, Bit(DriveLevel(b), pin)),
                SetBit(s.oe, pin, Bit(DriveOe(b), pin)))
    else s.(on := SetBit(s.on, pin, on))
  }

  /** Clock the bus keeper, then the synchroniser. */
  function Clocked(b: Bank): Bank {
    var q := b.(pad := b.pad.(keep := KeepWord(b)));
    q.(pio := q.pio.(sync1 := q.pio.sync0, sync0 := ViewWord(q)))
  }

  function ResetPads(b: Bank): Bank {
    b.(pad := PadRegs(Inv(0), 0, 0, Inv(0), 0), isol := Isolation(Inv(0), 0, 0))
  }

  function Update(b: Bank, op: PadOp): (r: Bank)
    requires b.mux.Valid()
    ensures r.mux.Valid()
  {
    match op
    case SetFunction(pin, f, dirs, levels) =>
      b.(mux := Rerouted(b.mux.funcsel[PinIdx(pin) := StoredFunc(f)]), pio := b.pio.(dirs := dirs, levels := levels))
    case SetOutOver(pin, force) => b.(over := b.over.(out := SetOverride(b.over.out, PinIdx(pin), force)))
    case SetOeOver(pin, force) => b.(over := b.over.(oe := SetOverride(b.over.oe, PinIdx(pin), force)))
    case SetInOver(pin, force) => b.(over := b.over.(inp := SetOverride(b.over.inp, PinIdx(pin), force)))
    case SetPeriph(pin, oe, level) =>
      b.(per := Periph(SetBit(b.per.oe, PinIdx(pin), oe), SetBit(b.per.levels, PinIdx(pin), level)))
    case SetInputEnable(pin, on) => b.(pad := b.pad.(ie := SetBit(b.pad.ie, PinIdx(pin), on)))
    case SetOutputDisable(pin, on) => b.(pad := b.pad.(od := SetBit(b.pad.od, PinIdx(pin), on)))
    case SetPulls(pin, up, down) =>
      b.(pad := b.pad.(pue := SetBit(b.pad.pue, PinIdx(pin), up), pde := SetBit(b.pad.pde, PinIdx(pin), down)))
    case SetIso(pin, on) => b.(isol := Isolate(b, PinIdx(pin), on))
    case SetExternal(pin, level) =>
      b.(ext := External(SetBit(b.ext.drive, PinIdx(pin), true), SetBit(b.ext.levels, PinIdx(pin), level)))
    case ReleaseExternal(pin) => b.(ext := b.ext.(drive := SetBit(b.ext.drive, PinIdx(pin), false)))
    case Resolved(dirs, levels) => b.(pio := b.pio.(dirs := dirs, levels := levels))
    case ClockPads => Clocked(b)
    case ResetHw => ResetPads(b)
  }

  function UpdateAll(b: Bank, ops: seq<PadOp>): (r: Bank)
    requires b.mux.Valid()
    ensures r.mux.Valid()
    decreases ops
  {
    if ops == [] then b else UpdateAll(Update(b, ops[0]), ops[1..])
  }

  /** pio_pads_init_defaults over a zeroed pad set. */
  function InitialFunc(n: nat): (s: seq<nat>)
    ensures |s| == n && forall i :: 0 <= i < n ==> s[i] == FUNC_ANY_PIO
  {
    if n == 0 then [] else InitialFunc(n - 1) + [FUNC_ANY_PIO]
  }

  function Initial(): (b: Bank)
    ensures b.mux.Valid()
  {
    var none := Over(0, 0, 0);
    Bank(Latches(0, 0, 0, 0, 0), External(0, 0), PadRegs(Inv(0), 0, 0, 0, 0), Isolation(0, 0, 0),
         Mux(InitialFunc(NUM_PINS), [Inv(0), Inv(0), Inv(0)], 0), Periph(0, 0), Overs(none, none, none))
  }

  // ---- invariants -----------------------------------------------------------------------------

  lemma {:induction false} RouteMaskAt(funcsel: seq<nat>, o: nat, n: nat, i: nat)
    requires n <= |funcsel| && n <= 64 && i < 64
    ensures Bit(RouteMask(funcsel, o, n), i) <==> i < n && RoutesTo(funcsel[i], o)
    decreases n
  {
    hide Bit, Or, RoutesTo, PinBit;
    if n == 0 {
      BitConst(i);
    } else {
      RouteMaskAt(funcsel, o, n - 1, i);
      BitOr(RouteMask(funcsel, o, n - 1), PinBit(n - 1), i);
      PinBitAt(n - 1, i);
    }
  }

  lemma {:induction false} AwayMaskAt(funcsel: seq<nat>, n: nat, i: nat)
    requires n <= |funcsel| && n <= 64 && i < 64
    ensures Bit(AwayMask(funcsel, n), i) <==> i < n && RoutesAway(funcsel[i])
    decreases n
  {
    hide Bit, Or, RoutesAway, PinBit;
    if n == 0 {
      BitConst(i);
    } else {
      AwayMaskAt(funcsel, n - 1, i);
      BitOr(AwayMask(funcsel, n - 1), PinBit(n - 1), i);
      PinBitAt(n - 1, i);
    }
  }

  lemma ReroutedAgrees(f: seq<nat>)
    requires |f| == NUM_PINS
    ensures CachesAgree(Rerouted(f))
  {
    hide Bit, RoutesTo, RoutesAway, RouteMask, AwayMask;
    var r := Rerouted(f);
    forall i | 0 <= i < NUM_PINS
      ensures forall o :: 0 <= o < NUM_PIO ==> (Bit(r.masks[o], i) <==> RoutesTo(f[i], o))
      ensures Bit(r.away, i) <==> RoutesAway(f[i])
    {
      RouteMaskAt(f, 0, |f|, i);
      RouteMaskAt(f, 1, |f|, i);
      RouteMaskAt(f, 2, |f|, i);
      AwayMaskAt(f, |f|, i);
    }
  }

  /** An override write sets that pin's field to exactly the written value, keeps
      every other pin's, and stays one-hot. */
  lemma OverrideWritten(o: Over, pin: nat, f: Force, i: nat)
    requires pin < 64 && i < 64
    ensures var r := OverAt(SetOverride(o, pin, f), i);
            if i == pin then GetOverride(r) == f && OneHot(r) else r == OverAt(o, i)
  {
    hide Bit, SetBit;
    SetBitAt(o.inv, pin, f == Invert, i);
    SetBitAt(o.low, pin, f == Low, i);
    SetBitAt(o.high, pin, f == High, i);
  }

  lemma OverrideStaysOneHot(o: Over, pin: nat, f: Force)
    requires OverOneHot(o) && pin < 64
    ensures OverOneHot(SetOverride(o, pin, f))
  {
    hide SetOverride, OneHot, GetOverride, OverAt;
    forall i | 0 <= i < 64
      ensures OneHot(OverAt(SetOverride(o, pin, f), i))
    {
      OverrideWritten(o, pin, f, i);
    }
  }

  /** Every register operation keeps caches and overrides sound. */
  lemma UpdateSound(b: Bank, op: PadOp)
    requires Sound(b)
    ensures Sound(Update(b, op))
  {
    hide CachesAgree, OverOneHot, SetOverride, SetBit, Isolate, KeepWord, ViewWord, Rerouted, PinIdx, Inv, StoredFunc;
    match op
    case SetOutOver(pin, f) => OverrideStaysOneHot(b.over.out, PinIdx(pin), f);
    case SetOeOver(pin, f) => OverrideStaysOneHot(b.over.oe, PinIdx(pin), f);
    case SetInOver(pin, f) => OverrideStaysOneHot(b.over.inp, PinIdx(pin), f);
    case SetFunction(pin, f, dirs, levels) => ReroutedAgrees(b.mux.funcsel[PinIdx(pin) := StoredFunc(f)]);
    case _ =>
  }

  lemma InitialSound()
    ensures Sound(Initial())
  {
    hide Bit, Inv;
    forall i | 0 <= i < 64
      ensures !Bit(0, i) && Bit(Inv(0), i)
    {
      BitConst(i);
    }
  }

  lemma SoundValid(b: Bank)
    requires Sound(b)
    ensures b.mux.Valid()
  {
  }

  /** From initialisation on, under every sequence of operations, the caches agree
      with FUNCSEL and every override field is one-hot. */
  lemma {:induction false} AlwaysSound(b: Bank, ops: seq<PadOp>)
    requires Sound(b)
    ensures Sound(UpdateAll(b, ops))
    decreases ops
  {
    hide Sound, Update;
    SoundValid(b);
    if ops != [] {
      UpdateSound(b, ops[0]);
      AlwaysSound(Update(b, ops[0]), ops[1..]);
    }
  }

  // ---- isolation ---------------------------------------------------------------------------------

  /** The operation may end the isolation of pin `i`. */
  predicate EndsIso(op: PadOp, i: nat) {
    op.ResetHw? || (op.SetIso? && PinIdx(op.pin) == i && !op.on)
  }

  /** What pin `i` drives, read from the words. */
  function Driven(b: Bank, i: nat): (bool, bool) {
    (Bit(DriveOe(b), i), Bit(DriveLevel(b), i))
  }

  lemma IsolatedDrive(b: Bank, i: nat)
    requires i < 64 && Bit(b.isol.on, i)
    ensures Driven(b, i) == (Bit(b.isol.oe, i), Bit(b.isol.levels, i))
  {
    hide Bit, DriveOe, DriveLevel;
    OeAt(b, i);
    LevelAt(b, i);
  }

  /** Isolation of pin `pin` leaves the latches of the others alone, and its own
      if it was isolated already. */
  lemma IsolateAt(b: Bank, pin: nat, on: bool, i: nat)
    requires pin < 64 && i < 64
    ensures var s, r := b.isol, Isolate(b, pin, on);
            && Bit(r.on, i) == (if i == pin then on else Bit(s.on, i))
            && (if i == pin && on && !Bit(s.on, i) then (Bit(r.oe, i), Bit(r.levels, i)) == Driven(b, i)
                else Bit(r.oe, i) == Bit(s.oe, i) && Bit(r.levels, i) == Bit(s.levels, i))
  {
    hide Bit, SetBit, DriveOe, DriveLevel;
    SetBitAt(b.isol.on, pin, on, i);
    SetBitAt(b.isol.levels, pin, Bit(DriveLevel(b), pin), i);
    SetBitAt(b.isol.oe, pin, Bit(DriveOe(b), pin), i);
  }

  /** Any operation short of clearing ISO or resetting the pads keeps an isolated
      pin isolated, with the same drive. */
  lemma IsoStep(b: Bank, op: PadOp, i: nat)
    requires b.mux.Valid() && i < 64 && Bit(b.isol.on, i) && !EndsIso(op, i)
    ensures Bit(Update(b, op).isol.on, i) && Driven(Update(b, op), i) == Driven(b, i)
  {
    hide Bit, SetBit, SetOverride, DriveOe, DriveLevel, Driven, Isolate, KeepWord, ViewWord, Rerouted, PinIdx, StoredFunc;
    var r := Update(b, op);
    if op.SetIso? { IsolateAt(b, PinIdx(op.pin), op.on, i); }
    assert Bit(r.isol.on, i) && Bit(r.isol.oe, i) == Bit(b.isol.oe, i) && Bit(r.isol.levels, i) == Bit(b.isol.levels, i);
    hide Update;
    IsolatedDrive(b, i);
    IsolatedDrive(r, i);
  }

  /** While ISO stays set, a pin's chip-side drive is constant under every
      sequence of other operations. */
  lemma {:induction false} IsoFreezes(b: Bank, ops: seq<PadOp>, i: nat)
    requires b.mux.Valid() && i < 64 && Bit(b.isol.on, i)
    requires forall k :: 0 <= k < |ops| ==> !EndsIso(ops[k], i)
    ensures Bit(UpdateAll(b, ops).isol.on, i) && Driven(UpdateAll(b, ops), i) == Driven(b, i)
    decreases ops
  {
    hide Update, Bit, Driven;
    if ops != [] {
      IsoStep(b, ops[0], i);
      IsoFreezes(Update(b, ops[0]), ops[1..], i);
    }
  }

  /** Raising ISO changes no pin's drive at that moment. */
  lemma IsoRaisesSmoothly(b: Bank, pin: nat, i: nat)
    requires b.mux.Valid() && i < 64
    ensures Driven(Update(b, SetIso(pin, true)), i) == Driven(b, i)
  {
    hide Bit, DriveOe, DriveLevel, Isolate;
    var r := Update(b, SetIso(pin, true));
    IsolateAt(b, PinIdx(pin), true, i);
    OeAt(b, i);
    LevelAt(b, i);
    OeAt(r, i);
    LevelAt(r, i);
  }
}
