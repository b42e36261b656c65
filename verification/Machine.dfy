/** The PIO execution engine on values: state machines, instruction handlers,
    one state-machine cycle and one system tick of a group of linked blocks. */
module Machine {
  import opened Options
  import opened Bits
  import opened FifoRing
  import opened Isa
  import opened Pads

  type Ring8 = f: Fifo | f.Valid() witness Fifo(seq(8, _ => ZERO), 0, 0, 0, 4)
  type Bit5 = n: nat | n < 32

  datatype Dir = Left | Right
  datatype Join = JoinNone | JoinTx | JoinRx | JoinRxPut | JoinRxGet | JoinRxPutGet
  datatype StatusSel = TxLevel | RxLevel | IrqSet | IrqSetPrev | IrqSetNext

  datatype SmConfig = SmConfig(
    outBase: nat, outCount: nat, setBase: nat, setCount: nat, inBase: nat, inCount: nat,
    sideBase: nat, sideBits: nat, sideOpt: bool, sidePindirs: bool, jmpPin: nat,
    outDir: Dir, inDir: Dir, autopull: bool, autopush: bool, pullThresh: nat, pushThresh: nat,
    divInt: nat, divFrac: nat, join: Join, statusSel: StatusSel, statusN: nat,
    sticky: bool, inlineEn: bool, enSel: Bit5)

  /** The sticky FDEBUG flags. */
  datatype Fdebug = Fdebug(txStall: bool, txOver: bool, rxUnder: bool, rxStall: bool)

  /** A state machine except its program counter and wrap window. */
  datatype Sm = Sm(
    enabled: bool, cfg: SmConfig,
    x: Word, y: Word, osr: Word, isr: Word, osrCount: nat, isrCount: nat,
    outVal: Pins, outOe: Pins, wrote: Pins, dirDriven: Pins,
    statusOverride: bool, statusValue: Word,
    clkAccum: nat, delay: nat, stalled: bool, execPending: bool, execInsn: Insn,
    fdebug: Fdebug, tx: Ring8, rx: Ring8)

  /** How blocks are wired: IRQ neighbours, pad set, GPIOBASE per block; owner
      blocks per pad set. */
  datatype Topo = Topo(
    prev: seq<Option<nat>>, next: seq<Option<nat>>, padIx: seq<nat>, gpioBase: seq<nat>,
    owners: seq<seq<nat>>)
  {
    ghost predicate Valid(blocks: nat) {
      && |prev| == |next| == |padIx| == |gpioBase| == blocks
      && (forall b :: 0 <= b < blocks ==> padIx[b] < |owners|)
      && (forall b :: 0 <= b < blocks && prev[b].Some? ==> prev[b].value < blocks)
      && (forall b :: 0 <= b < blocks && next[b].Some? ==> next[b].value < blocks)
      && (forall k :: 0 <= k < |owners| ==> |owners[k]| <= NUM_PIO)
      && (forall k, o :: 0 <= k < |owners| && 0 <= o < |owners[k]| ==> owners[k][o] < blocks)
    }
  }

  /** Everything the state machines share or own except instruction memory and
      program counters. State machine `g` is number `g % 4` of block `g / 4`. */
  datatype Env = Env(topo: Topo, sm: seq<Sm>, irq: seq<set<nat>>, pads: seq<Pads>) {
    ghost predicate Valid() {
      |sm| == 4 * |irq| && |topo.owners| == |pads| && topo.Valid(|irq|)
    }
  }

  ghost predicate Has(e: Env, g: nat) {
    e.Valid() && g < |e.sm|
  }

  /** A step by state machine `g`: same wiring, every other state machine's
      record untouched. */
  ghost predicate StepBy(e: Env, r: Env, g: nat) {
    && Has(e, g) && Has(r, g)
    && r.topo == e.topo && |r.irq| == |e.irq|
    && r.sm == e.sm[g := r.sm[g]]
  }

  lemma StepThenPut(e: Env, r: Env, g: nat, sm: Sm)
    requires StepBy(e, r, g)
    ensures StepBy(e, r.(sm := r.sm[g := sm]), g)
  {
  }

  lemma StepThenStep(e: Env, m: Env, r: Env, g: nat)
    requires StepBy(e, m, g) && StepBy(m, r, g)
    ensures StepBy(e, r, g)
  {
  }

  /** Fields no instruction writes: configuration, enable, clock, delay, stall. */
  predicate Keeps(a: Sm, b: Sm) {
    && b.cfg == a.cfg && b.enabled == a.enabled && b.clkAccum == a.clkAccum
    && b.delay == a.delay && b.stalled == a.stalled
  }

  /** The injection slot is as it was. */
  predicate SameSlot(a: Sm, b: Sm) {
    b.execPending == a.execPending && b.execInsn == a.execInsn
  }

  /** The output side (OSR, its count, TX) is as it was. */
  predicate SameOut(a: Sm, b: Sm) {
    b.osr == a.osr && b.osrCount == a.osrCount && b.tx == a.tx
  }

  /** The input side (ISR, its count, RX) is as it was. */
  predicate SameIn(a: Sm, b: Sm) {
    b.isr == a.isr && b.isrCount == a.isrCount && b.rx == a.rx
  }

  /** What presenting any instruction on state machine `g` leaves alone. */
  ghost predicate ExecBy(e: Env, r: Env, g: nat) {
    StepBy(e, r, g) && Keeps(e.sm[g], r.sm[g])
  }

  /** The pad set state machine `g` drives and samples. */
  function PadIx(e: Env, g: nat): (k: nat)
    requires Has(e, g)
    ensures k < |e.pads|
  {
    e.topo.padIx[g / 4]
  }

  // ---- pins ------------------------------------------------------------------

  /** phys_pin: the 32-pin window, offset by GPIOBASE. (`base + i` is an 8-bit
      sum in the source; 256 is a multiple of the window, so nothing changes.) */
  function PhysPin(gpioBase: nat, view: nat): (p: nat)
    ensures p < NUM_PINS
  {
    (gpioBase + view % 32) % NUM_PINS
  }

  function Clamp32(n: nat): nat {
    if n > 32 then 32 else n
  }

  /** The GPIO behind pin `i` of a span that starts at window pin `base`. */
  function SpanPin(gpioBase: nat, base: nat, i: nat): (p: nat)
    ensures p < NUM_PINS
  {
    PhysPin(gpioBase, base + i)
  }

  /** The GPIOs a span of the window covers. */
  function Span(gpioBase: nat, base: nat, count: nat): Pins {
    set i: nat | i < count :: SpanPin(gpioBase, base, i)
  }

  /** The GPIOs of a span that bit i of a value sets. */
  function SpanOnes(gpioBase: nat, base: nat, count: nat, v: Word): Pins
    requires count <= 32
  {
    set i: nat | i < count && v[i] :: SpanPin(gpioBase, base, i)
  }

  /** The claims competing for pad set `k`: owners in slot order, state machines
      in number order, masked by the function mux. */
  function ClaimOf(sm: Sm, mask: Pins): Claim {
    Claim(sm.enabled, sm.wrote * mask, sm.dirDriven * mask, sm.outVal, sm.outOe)
  }

  function Claims(e: Env, k: nat): (cs: seq<Claim>)
    requires e.Valid() && k < |e.pads|
    ensures |cs| == 4 * |e.topo.owners[k]|
  {
    seq(4 * |e.topo.owners[k]|, j requires 0 <= j < 4 * |e.topo.owners[k]| =>
      ClaimOf(e.sm[4 * e.topo.owners[k][j / 4] + j % 4], e.pads[k].funcMask[j / 4]))
  }

  /** Re-resolve pad set `k` from the state machines' output registers. */
  function ResolvePads(e: Env, k: nat): (r: Env)
    requires e.Valid() && k < |e.pads|
    ensures r.Valid() && r.sm == e.sm && r.irq == e.irq && r.topo == e.topo && |r.pads| == |e.pads|
  {
    e.(pads := e.pads[k := Resolve(e.pads[k], Claims(e, k))])
  }

  function PutSm(e: Env, g: nat, sm: Sm): (r: Env)
    requires Has(e, g)
    ensures Has(r, g) && r.sm == e.sm[g := sm] && r.irq == e.irq && r.topo == e.topo && r.pads == e.pads
  {
    e.(sm := e.sm[g := sm])
  }

  function GpioBase(e: Env, g: nat): nat
    requires Has(e, g)
  {
    e.topo.gpioBase[g / 4]
  }

  /** drive_pins: write output levels on a span and re-resolve. */
  function DrivePins(e: Env, g: nat, base: nat, count: nat, v: Word): (r: Env)
    requires Has(e, g)
    ensures ExecBy(e, r, g)
    ensures Repads(e, r, g) && e.sm[g].wrote <= r.sm[g].wrote
    ensures SameSlot(e.sm[g], r.sm[g])
    ensures SameOut(e.sm[g], r.sm[g]) && SameIn(e.sm[g], r.sm[g])
  {
    var sm, n, gb := e.sm[g], Clamp32(count), GpioBase(e, g);
    var span := Span(gb, base, n);
    ResolvePads(PutSm(e, g, sm.(outVal := (sm.outVal - span) + SpanOnes(gb, base, n, v),
                                wrote := sm.wrote + span)), PadIx(e, g))
  }

  /** drive_pindirs: write pin directions on a span and re-resolve. */
  function DrivePindirs(e: Env, g: nat, base: nat, count: nat, v: Word): (r: Env)
    requires Has(e, g)
    ensures ExecBy(e, r, g)
    ensures Repads(e, r, g) && e.sm[g].wrote <= r.sm[g].wrote
    ensures SameSlot(e.sm[g], r.sm[g])
    ensures SameOut(e.sm[g], r.sm[g]) && SameIn(e.sm[g], r.sm[g])
  {
    var sm, n, gb := e.sm[g], Clamp32(count), GpioBase(e, g);
    var span := Span(gb, base, n);
    ResolvePads(PutSm(e, g, sm.(outOe := (sm.outOe - span) + SpanOnes(gb, base, n, v),
                                dirDriven := sm.dirDriven + span)), PadIx(e, g))
  }

  /** release_out_pins: stop driving the OUT span altogether. */
  function ReleaseOutPins(e: Env, g: nat): (r: Env)
    requires Has(e, g)
    ensures ExecBy(e, r, g)
    ensures Repads(e, r, g)
    ensures SameSlot(e.sm[g], r.sm[g])
    ensures SameOut(e.sm[g], r.sm[g]) && SameIn(e.sm[g], r.sm[g])
  {
    var sm := e.sm[g];
    var span := Span(GpioBase(e, g), sm.cfg.outBase, sm.cfg.outCount);
    ResolvePads(PutSm(e, g, sm.(outOe := sm.outOe - span, wrote := sm.wrote - span,
                                dirDriven := sm.dirDriven - span)), PadIx(e, g))
  }

  /** pio_input_level of a window pin. */
  predicate InputPin(e: Env, g: nat, view: nat)
    requires Has(e, g)
  {
    PhysPin(GpioBase(e, g), view) in Sampled(e.pads[PadIx(e, g)])
  }

  /** Nothing that decides pin directions changed. */
  predicate SameDirs(a: Sm, b: Sm) {
    b.enabled == a.enabled && b.dirDriven == a.dirDriven && b.outOe == a.outOe
  }

  /** An instruction of `g` touches pads only by re-resolving `g`'s pad set from
      its new output registers, and does so whenever those drive directions anew. */
  ghost predicate Repads(e: Env, r: Env, g: nat)
    requires StepBy(e, r, g)
  {
    (r.pads == e.pads && SameDirs(e.sm[g], r.sm[g])) || r.pads == ResolvePads(PutSm(e, g, r.sm[g]), PadIx(e, g)).pads
  }

  // ---- sources ---------------------------------------------------------------

  predicate StatusHolds(e: Env, g: nat)
    requires Has(e, g)
  {
    var sm, b := e.sm[g], g / 4;
    match sm.cfg.statusSel
    case TxLevel => sm.tx.count < sm.cfg.statusN
    case RxLevel => sm.rx.count < sm.cfg.statusN
    case IrqSet => sm.cfg.statusN % 8 in e.irq[b]
    case IrqSetPrev => e.topo.prev[b].Some? && sm.cfg.statusN % 8 in e.irq[e.topo.prev[b].value]
    case IrqSetNext => e.topo.next[b].Some? && sm.cfg.statusN % 8 in e.irq[e.topo.next[b].value]
  }

  /** read_status: a fixed override, or all ones while the condition holds. */
  function ReadStatus(e: Env, g: nat): Word
    requires Has(e, g)
  {
    if e.sm[g].statusOverride then e.sm[g].statusValue
    else if StatusHolds(e, g) then ONES else ZERO
  }

  /** read_in_pins over the whole window, masked to the IN pin count. */
  function PinWord(gpioBase: nat, base: nat, count: nat, seen: Pins): Word {
    seq(32, i requires 0 <= i < 32 => i < count && SpanPin(gpioBase, base, i) in seen)
  }

  function ReadInPins(e: Env, g: nat): Word
    requires Has(e, g)
  {
    PinWord(GpioBase(e, g), e.sm[g].cfg.inBase, e.sm[g].cfg.inCount, Sampled(e.pads[PadIx(e, g)]))
  }

  /** read_source: the source operand shared by IN and MOV. */
  function ReadSource(e: Env, g: nat, src: nat): Word
    requires Has(e, g)
  {
    var sm := e.sm[g];
    match src
    case 0 => ReadInPins(e, g)
    case 1 => sm.x
    case 2 => sm.y
    case 5 => ReadStatus(e, g)
    case 6 => sm.isr
    case 7 => sm.osr
    case _ => ZERO
  }

  // ---- instruction handlers --------------------------------------------------

  /** Effect of presenting an instruction: new state, whether it stalled, and the
      program counter it sets, if any. */
  datatype Step = Step(env: Env, stalled: bool, jump: Option<nat>)

  function Done(e: Env): Step { Step(e, false, None) }

  function Stall(e: Env): Step { Step(e, true, None) }

  function ExecJmp(e: Env, g: nat, cond: nat, addr: nat): (r: Step)
    requires Has(e, g)
    ensures ExecBy(e, r.env, g) && !r.stalled
    ensures Repads(e, r.env, g)
    ensures SameSlot(e.sm[g], r.env.sm[g]) && (r.jump.Some? ==> r.jump.value == addr) && (cond == 0 ==> r.jump.Some?)
    ensures SameOut(e.sm[g], r.env.sm[g]) && SameIn(e.sm[g], r.env.sm[g])
  {
    var sm := e.sm[g];
    var taken := match cond
      case 0 => true
      case 1 => sm.x == ZERO
      case 2 => sm.x != ZERO
      case 3 => sm.y == ZERO
      case 4 => sm.y != ZERO
      case 5 => sm.x != sm.y
      case 6 => InputPin(e, g, sm.cfg.jmpPin)
      case _ => sm.osrCount < sm.cfg.pullThresh;
    var sm' := if cond == 2 then sm.(x := Decrement(sm.x))
               else if cond == 4 then sm.(y := Decrement(sm.y)) else sm;
    Step(PutKept(e, g, sm'), false, if taken then Some(addr) else None)
  }

  /** resolve_irq_target and irq_target_block: the block (if linked) and flag an
      IRQ index field names for state machine `g`. */
  function IrqTarget(e: Env, g: nat, field: nat): (r: (Option<nat>, nat))
    requires Has(e, g)
    ensures r.0.Some? ==> r.0.value < |e.irq|
    ensures r.1 < 8
  {
    IrqPick(e, g, (field / 8) % 4, field % 8)
  }

  /** The block and flag of flag number `base` under an index mode. */
  function IrqPick(e: Env, g: nat, mode: nat, base: nat): (r: (Option<nat>, nat))
    requires Has(e, g) && base < 8
    ensures r.0.Some? ==> r.0.value < |e.irq|
    ensures r.1 < 8
  {
    match mode
    case 0 => (Some(g / 4), base)
    case 1 => (e.topo.prev[g / 4], base)
    case 2 => (Some(g / 4), (base / 4) * 4 + (base % 4 + g % 4) % 4)
    case _ => (e.topo.next[g / 4], base)
  }

  function SetIrq(e: Env, b: nat, flag: nat, on: bool): (r: Env)
    requires e.Valid() && b < |e.irq|
    ensures r.Valid() && r.sm == e.sm && r.pads == e.pads && r.topo == e.topo && |r.irq| == |e.irq|
  {
    e.(irq := e.irq[b := if on then e.irq[b] + {flag} else e.irq[b] - {flag}])
  }

  /** WAIT IRQ: an unlinked block stalls; waiting for a one consumes the flag. */
  function WaitIrq(e: Env, g: nat, want: bool, index: nat): (r: Step)
    requires Has(e, g)
    ensures ExecBy(e, r.env, g) && r.env.sm == e.sm && r.env.pads == e.pads && r.jump.None?
  {
    var (blk, flag) := IrqTarget(e, g, index);
    if blk.None? || (flag in e.irq[blk.value]) != want then Stall(e)
    else if want then Done(SetIrq(e, blk.value, flag, false))
    else Done(e)
  }

  function ExecWait(e: Env, g: nat, polarity: nat, source: nat, index: nat): (r: Step)
    requires Has(e, g)
    ensures ExecBy(e, r.env, g)
    ensures Repads(e, r.env, g)
    ensures r.jump.None? && SameSlot(e.sm[g], r.env.sm[g])
    ensures SameOut(e.sm[g], r.env.sm[g]) && SameIn(e.sm[g], r.env.sm[g])
  {
    var sm, want := e.sm[g], polarity == 1;
    match source
    case 0 => Step(e, InputPin(e, g, index) != want, None)
    case 1 => Step(e, (index < sm.cfg.inCount && InputPin(e, g, sm.cfg.inBase + index)) != want, None)
    case 2 => WaitIrq(e, g, want, index)
    case _ => Step(e, InputPin(e, g, sm.cfg.jmpPin + index) != want, None)
  }

  predicate RegisterFile(j: Join) {
    j.JoinRxPut? || j.JoinRxGet? || j.JoinRxPutGet?
  }

  /** The ISR after shifting in the low `count` bits of a value. */
  function ShiftIn(dir: Dir, isr: Word, v: Word, count: nat): Word
    requires 1 <= count <= 32
  {
    var data := Low(v, count);
    if count == 32 then data
    else if dir == Right then Or(Shr(isr, count), Shl(data, 32 - count))
    else Or(Shl(isr, count), data)
  }

  /** isr_drain on an RX FIFO that has room: push the ISR and empty it. */
  function Drain(sm: Sm): (r: Sm)
    ensures LocalTo(sm, r) && SameOut(sm, r) && r.x == sm.x && r.y == sm.y
  {
    sm.(rx := sm.rx.Push(sm.isr).0, isr := ZERO, isrCount := 0)
  }

  /** A local instruction touches neither pins, control fields nor the slot. */
  predicate LocalTo(a: Sm, b: Sm) {
    && Keeps(a, b) && SameSlot(a, b)
    && b.outVal == a.outVal && b.outOe == a.outOe && b.wrote == a.wrote && b.dirDriven == a.dirDriven
    && b.statusOverride == a.statusOverride && b.statusValue == a.statusValue
  }

  /** The ISR and its count after `count` more bits. */
  function InShifted(sm: Sm, v: Word, count: nat): (r: Sm)
    requires 1 <= count <= 32
    ensures LocalTo(sm, r) && SameOut(sm, r) && r.x == sm.x && r.y == sm.y
  {
    var n := if sm.isrCount + count > 32 then 32 else sm.isrCount + count;
    sm.(isr := ShiftIn(sm.cfg.inDir, sm.isr, v, count), isrCount := n)
  }

  /** exec_in for source value `v`; the flag says it stalled. */
  function InSm(sm: Sm, v: Word, count: nat): (r: (Sm, bool))
    requires 1 <= count <= 32
    ensures LocalTo(sm, r.0) && SameOut(sm, r.0) && r.0.x == sm.x && r.0.y == sm.y
  {
    var cfg := sm.cfg;
    if cfg.autopush && sm.isrCount + count >= cfg.pushThresh && (RegisterFile(cfg.join) || sm.rx.Full()) then
      (sm.(fdebug := sm.fdebug.(rxStall := true)), true)
    else
      var s := InShifted(sm, v, count);
      (if cfg.autopush && s.isrCount >= cfg.pushThresh then Drain(s) else s, false)
  }

  function ExecIn(e: Env, g: nat, src: nat, count: nat): (r: Step)
    requires Has(e, g) && 1 <= count <= 32
    ensures ExecBy(e, r.env, g) && Repads(e, r.env, g)
    ensures r.jump.None? && SameSlot(e.sm[g], r.env.sm[g]) && SameOut(e.sm[g], r.env.sm[g])
  {
    var r := InSm(e.sm[g], ReadSource(e, g, src), count);
    Step(PutSm(e, g, r.0), r.1, None)
  }

  /** The `count` bits an OUT takes from the OSR. */
  function ShiftOutValue(dir: Dir, osr: Word, count: nat): Word
    requires 1 <= count <= 32
  {
    if dir == Right then Low(osr, count)
    else if count == 32 then osr
    else Low(Shr(osr, 32 - count), count)
  }

  /** What an OUT leaves in the OSR. */
  function ShiftOutRest(dir: Dir, osr: Word, count: nat): Word
    requires 1 <= count <= 32
  {
    if count == 32 then ZERO else if dir == Right then Shr(osr, count) else Shl(osr, count)
  }

  /** Store a record that keeps control fields and direction registers. */
  function PutKept(e: Env, g: nat, sm: Sm): (r: Env)
    requires Has(e, g) && Keeps(e.sm[g], sm) && SameDirs(e.sm[g], sm)
    ensures ExecBy(e, r, g) && Repads(e, r, g)
    ensures r.sm[g] == sm && r.irq == e.irq && r.pads == e.pads
  {
    PutSm(e, g, sm)
  }

  /** OUT PINS with its inline enable: drive, release, or leave alone. */
  function OutPins(e: Env, g: nat, v: Word): (r: Env)
    requires Has(e, g)
    ensures ExecBy(e, r, g) && Repads(e, r, g) && SameSlot(e.sm[g], r.sm[g])
    ensures SameOut(e.sm[g], r.sm[g]) && SameIn(e.sm[g], r.sm[g])
  {
    var cfg := e.sm[g].cfg;
    if !cfg.inlineEn || v[cfg.enSel] then DrivePins(e, g, cfg.outBase, cfg.outCount, v)
    else if cfg.sticky then ReleaseOutPins(e, g)
    else e
  }

  /** OUT data in a register or control field. */
  function OutSm(sm: Sm, dest: nat, v: Word, count: nat): (r: Sm)
    ensures Keeps(sm, r) && SameDirs(sm, r) && SameOut(sm, r)
    ensures (dest != 7 ==> SameSlot(sm, r)) && (dest != 6 ==> SameIn(sm, r))
  {
    match dest
    case 1 => sm.(x := v)
    case 2 => sm.(y := v)
    case 6 => sm.(isr := v, isrCount := count)
    case 7 => sm.(execPending := true, execInsn := Low16(v))
    case _ => sm
  }

  /** out_store: deliver OUT data to its destination. */
  function OutStore(e: Env, g: nat, dest: nat, v: Word, count: nat): (r: Step)
    requires Has(e, g)
    ensures ExecBy(e, r.env, g) && !r.stalled
    ensures Repads(e, r.env, g)
    ensures dest != 5 && dest != 7 ==> r.jump.None? && SameSlot(e.sm[g], r.env.sm[g])
    ensures SameOut(e.sm[g], r.env.sm[g]) && (dest != 6 ==> SameIn(e.sm[g], r.env.sm[g]))
  {
    match dest
    case 0 => Done(OutPins(e, g, v))
    case 4 => Done(DrivePindirs(e, g, e.sm[g].cfg.outBase, e.sm[g].cfg.outCount, v))
    case 5 => Step(e, false, Some(ToNat(v[..5])))
    case _ => Done(PutKept(e, g, OutSm(e.sm[g], dest, v, count)))
  }

  /** `(uint16_t)v`. */
  function Low16(v: Word): Insn {
    var n := ToNat(v[..16]);
    Pow2Add(8, 8);
    assert Pow2(8) == 256;
    n
  }

  /** The OSR and its count after an OUT. */
  function OutShifted(sm: Sm, count: nat): (r: Sm)
    requires 1 <= count <= 32
    ensures LocalTo(sm, r) && SameIn(sm, r) && r.tx == sm.tx && r.x == sm.x && r.y == sm.y
  {
    var n := if sm.osrCount + count > 32 then 32 else sm.osrCount + count;
    sm.(osr := ShiftOutRest(sm.cfg.outDir, sm.osr, count), osrCount := n)
  }

  /** The store of an OUT whose bits have left the OSR. */
  function OutAfterShift(e: Env, g: nat, dest: nat, count: nat): (r: Step)
    requires Has(e, g) && 1 <= count <= 32
    ensures ExecBy(e, r.env, g) && !r.stalled && Repads(e, r.env, g)
    ensures dest != 5 && dest != 7 ==> r.jump.None? && SameSlot(e.sm[g], r.env.sm[g])
    ensures dest != 6 ==> SameIn(e.sm[g], r.env.sm[g])
  {
    var sm := e.sm[g];
    var m := PutSm(e, g, OutShifted(sm, count));
    var r := OutStore(m, g, dest, ShiftOutValue(sm.cfg.outDir, sm.osr, count), count);
    StepThenStep(e, m, r.env, g);
    PutRepads(e, m, r.env, g);
    r
  }

  /** A pad-neutral update first does not change how a step re-resolves. */
  lemma PutRepads(e: Env, m: Env, r: Env, g: nat)
    requires StepBy(e, m, g) && StepBy(m, r, g) && StepBy(e, r, g) && m == PutSm(e, g, m.sm[g])
    requires SameDirs(e.sm[g], m.sm[g]) && Repads(m, r, g)
    ensures Repads(e, r, g)
  {
    assert PutSm(m, g, r.sm[g]) == PutSm(e, g, r.sm[g]);
  }

  function ExecOut(e: Env, g: nat, dest: nat, count: nat): (r: Step)
    requires Has(e, g) && 1 <= count <= 32
    ensures ExecBy(e, r.env, g)
    ensures Repads(e, r.env, g)
    ensures dest != 5 && dest != 7 ==> r.jump.None? && SameSlot(e.sm[g], r.env.sm[g])
    ensures dest != 6 ==> SameIn(e.sm[g], r.env.sm[g])
  {
    var sm := e.sm[g];
    if sm.cfg.autopull && sm.osrCount >= sm.cfg.pullThresh then
      Stall(PutSm(e, g, sm.(fdebug := sm.fdebug.(txStall := true))))
    else OutAfterShift(e, g, dest, count)
  }

  /** exec_pushpull, PUSH half. */
  function PushSm(sm: Sm, ifFull: bool, block: bool): (r: (Sm, bool))
    ensures LocalTo(sm, r.0) && SameOut(sm, r.0) && r.0.x == sm.x && r.0.y == sm.y
  {
    if ifFull && sm.isrCount < sm.cfg.pushThresh then (sm, false)
    else if RegisterFile(sm.cfg.join) || sm.rx.Full() then
      var s := sm.(fdebug := sm.fdebug.(rxStall := true));
      if block then (s, true) else (s.(isr := ZERO, isrCount := 0), false)
    else (Drain(sm), false)
  }

  function ExecPush(e: Env, g: nat, ifFull: bool, block: bool): (r: Step)
    requires Has(e, g)
    ensures ExecBy(e, r.env, g) && Repads(e, r.env, g)
    ensures r.jump.None? && SameSlot(e.sm[g], r.env.sm[g]) && SameOut(e.sm[g], r.env.sm[g])
  {
    var r := PushSm(e.sm[g], ifFull, block);
    Step(PutSm(e, g, r.0), r.1, None)
  }

  /** osr_refill: pop TX into the OSR if there is a word. */
  function Refill(sm: Sm): (r: Sm)
    ensures LocalTo(sm, r) && SameIn(sm, r) && r.x == sm.x && r.y == sm.y
  {
    var p := sm.tx.Pop();
    if p.2 then sm.(tx := p.0, osr := p.1, osrCount := 0) else sm
  }

  /** exec_pushpull, PULL half: with autopull, a PULL on a full OSR is a barrier. */
  function PullSm(sm: Sm, ifEmpty: bool, block: bool): (r: (Sm, bool))
    ensures LocalTo(sm, r.0) && SameIn(sm, r.0) && r.0.x == sm.x && r.0.y == sm.y
  {
    if ifEmpty && sm.osrCount < sm.cfg.pullThresh then (sm, false)
    else if sm.cfg.autopull && sm.osrCount == 0 then (sm, false)
    else if sm.tx.Empty() then
      var s := sm.(fdebug := sm.fdebug.(txStall := true));
      if block then (s, true) else (s.(osr := sm.x, osrCount := 0), false)
    else (Refill(sm), false)
  }

  function ExecPull(e: Env, g: nat, ifEmpty: bool, block: bool): (r: Step)
    requires Has(e, g)
    ensures ExecBy(e, r.env, g) && Repads(e, r.env, g)
    ensures r.jump.None? && SameSlot(e.sm[g], r.env.sm[g]) && SameIn(e.sm[g], r.env.sm[g])
  {
    var r := PullSm(e.sm[g], ifEmpty, block);
    Step(PutSm(e, g, r.0), r.1, None)
  }

  /** exec_mov_rxfifo: the RX FIFO as a four-entry register file. */
  function RxFifoSm(sm: Sm, get: bool, literal: bool, idx: nat): (r: Sm)
    requires idx < 4
    ensures LocalTo(sm, r) && (if get then SameIn(sm, r) else SameOut(sm, r)) && r.x == sm.x && r.y == sm.y
  {
    var i := if literal then idx else ToNat(sm.y[..2]) % 4;
    if get then
      if sm.cfg.join.JoinRxGet? || sm.cfg.join.JoinRxPutGet? then sm.(osr := sm.rx.buf[i], osrCount := 0) else sm
    else if sm.cfg.join.JoinRxPut? || sm.cfg.join.JoinRxPutGet? then
      sm.(rx := sm.rx.(buf := sm.rx.buf[i := sm.isr]), isr := ZERO, isrCount := 0)
    else sm
  }

  function ExecRxFifo(e: Env, g: nat, get: bool, literal: bool, idx: nat): (r: Step)
    requires Has(e, g) && idx < 4
    ensures ExecBy(e, r.env, g) && !r.stalled && Repads(e, r.env, g)
    ensures r.jump.None? && SameSlot(e.sm[g], r.env.sm[g])
    ensures if get then SameIn(e.sm[g], r.env.sm[g]) else SameOut(e.sm[g], r.env.sm[g])
  {
    Done(PutSm(e, g, RxFifoSm(e.sm[g], get, literal, idx)))
  }

  function MovValue(mop: nat, raw: Word): Word {
    if mop == 1 then Not(raw) else if mop == 2 then Reverse(raw) else raw
  }

  /** A MOV value in a register or control field. */
  function MovSm(sm: Sm, dest: nat, v: Word): (r: Sm)
    ensures Keeps(sm, r) && SameDirs(sm, r) && (dest != 4 ==> SameSlot(sm, r))
    ensures (dest != 7 ==> SameOut(sm, r)) && (dest != 6 ==> SameIn(sm, r))
  {
    match dest
    case 1 => sm.(x := v)
    case 2 => sm.(y := v)
    case 4 => sm.(execPending := true, execInsn := Low16(v))
    case 6 => sm.(isr := v, isrCount := 0)
    case 7 => sm.(osr := v, osrCount := 0)
    case _ => sm
  }

  function ExecMov(e: Env, g: nat, dest: nat, mop: nat, src: nat): (r: Step)
    requires Has(e, g) && dest < 8
    ensures ExecBy(e, r.env, g) && !r.stalled
    ensures Repads(e, r.env, g)
    ensures dest != 4 && dest != 5 ==> r.jump.None? && SameSlot(e.sm[g], r.env.sm[g])
    ensures (dest != 7 ==> SameOut(e.sm[g], r.env.sm[g])) && (dest != 6 ==> SameIn(e.sm[g], r.env.sm[g]))
  {
    var cfg, v := e.sm[g].cfg, MovValue(mop, ReadSource(e, g, src));
    match dest
    case 0 => Done(DrivePins(e, g, cfg.outBase, cfg.outCount, v))
    case 3 => Done(DrivePindirs(e, g, cfg.outBase, cfg.outCount, v))
    case 5 => Step(e, false, Some(ToNat(v[..5])))
    case _ => Done(PutKept(e, g, MovSm(e.sm[g], dest, v)))
  }

  function ExecIrq(e: Env, g: nat, clear: bool, wait: bool, field: nat): (r: Step)
    requires Has(e, g)
    ensures ExecBy(e, r.env, g)
    ensures Repads(e, r.env, g)
    ensures r.jump.None? && SameSlot(e.sm[g], r.env.sm[g])
    ensures SameOut(e.sm[g], r.env.sm[g]) && SameIn(e.sm[g], r.env.sm[g])
  {
    var (blk, flag) := IrqTarget(e, g, field);
    if blk.None? then Step(e, wait && !clear, None)
    else if clear then Done(SetIrq(e, blk.value, flag, false))
    else if wait then
      var e' := if e.sm[g].stalled then e else SetIrq(e, blk.value, flag, true);
      Step(e', flag in e'.irq[blk.value], None)
    else Done(SetIrq(e, blk.value, flag, true))
  }

  function ExecSet(e: Env, g: nat, dest: nat, value: nat): (r: Step)
    requires Has(e, g)
    ensures ExecBy(e, r.env, g) && !r.stalled
    ensures Repads(e, r.env, g)
    ensures r.jump.None? && SameSlot(e.sm[g], r.env.sm[g])
    ensures SameOut(e.sm[g], r.env.sm[g]) && SameIn(e.sm[g], r.env.sm[g])
  {
    var sm, v := e.sm[g], FromNat(value, 32);
    match dest
    case 0 => Done(DrivePins(e, g, sm.cfg.setBase, sm.cfg.setCount, v))
    case 1 => Done(PutKept(e, g, sm.(x := v)))
    case 2 => Done(PutKept(e, g, sm.(y := v)))
    case 4 => Done(DrivePindirs(e, g, sm.cfg.setBase, sm.cfg.setCount, v))
    case _ => Done(e)
  }

  function ExecOp(e: Env, g: nat, op: Op): (r: Step)
    requires Has(e, g) && Encodable(op)
    ensures ExecBy(e, r.env, g)
    ensures Repads(e, r.env, g)
  {
    match op
    case Jmp(cond, addr) => ExecJmp(e, g, cond, addr)
    case Wait(polarity, source, index) => ExecWait(e, g, polarity, source, index)
    case In(src, count) => ExecIn(e, g, src, count)
    case Out(dest, count) => ExecOut(e, g, dest, count)
    case Push(ifFull, block) => ExecPush(e, g, ifFull, block)
    case Pull(ifEmpty, block) => ExecPull(e, g, ifEmpty, block)
    case RxFifo(get, literal, idx) => ExecRxFifo(e, g, get, literal, idx)
    case Mov(dest, mop, src) => ExecMov(e, g, dest, mop, src)
    case Irq(clear, wait, field) => ExecIrq(e, g, clear, wait, field)
    case Set(dest, value) => ExecSet(e, g, dest, value)
  }

  function DelaySideOf(cfg: SmConfig, insn: Insn): DelaySide {
    DecodeDelaySide(cfg.sideBits, cfg.sideOpt, DelayField(insn))
  }

  /** Side-set drives its pins on every presentation, stalled or not. */
  function ApplySide(e: Env, g: nat, ds: DelaySide): (r: Env)
    requires Has(e, g)
    ensures ExecBy(e, r, g)
    ensures Repads(e, r, g) && e.sm[g].wrote <= r.sm[g].wrote
    ensures SameSlot(e.sm[g], r.sm[g])
    ensures SameOut(e.sm[g], r.sm[g]) && SameIn(e.sm[g], r.sm[g])
  {
    var cfg := e.sm[g].cfg;
    if ds.enabled && ds.bits > 0 then
      if cfg.sidePindirs then DrivePindirs(e, g, cfg.sideBase, ds.bits, FromNat(ds.side, 32))
      else DrivePins(e, g, cfg.sideBase, ds.bits, FromNat(ds.side, 32))
    else e
  }

  /** exec_one without the delay, which is a function of the word alone. */
  function ExecOne(e: Env, g: nat, insn: Insn): (r: Step)
    requires Has(e, g)
    ensures ExecBy(e, r.env, g)
  {
    var r := ExecOp(e, g, Decode(insn));
    var s := ApplySide(r.env, g, DelaySideOf(e.sm[g].cfg, insn));
    StepThenStep(e, r.env, s, g);
    Step(s, r.stalled, r.jump)
  }

  // ---- cycles and ticks ------------------------------------------------------

  /** Program counter and wrap window of a state machine. */
  datatype Flow = Flow(pc: nat, bottom: nat, top: nat)

  /** A block's instruction memory. */
  type InsnMem = s: seq<Insn> | |s| == 32 witness seq(32, _ => 0)
  type UsedMap = s: seq<bool> | |s| == 32 witness Zeros(32)

  datatype Code = Code(insn: InsnMem, used: UsedMap, unwritten: nat)

  datatype World = World(env: Env, flow: seq<Flow>, code: seq<Code>) {
    ghost predicate Valid() {
      && env.Valid()
      && |flow| == |env.sm|
      && |code| == |env.irq|
    }
  }

  ghost predicate InWorld(w: World, g: nat) {
    w.Valid() && g < |w.env.sm|
  }

  /** Background autopull at the top of a cycle. */
  function Autopull(sm: Sm): Sm {
    if sm.cfg.autopull && sm.osrCount >= sm.cfg.pullThresh then Refill(sm) else sm
  }

  /** The word state machine `g` presents: the injected one if any, else memory
      at the program counter. */
  function Presented(w: World, g: nat): Insn
    requires InWorld(w, g)
  {
    if w.env.sm[g].execPending then w.env.sm[g].execInsn
    else w.code[g / 4].insn[w.flow[g].pc % 32]
  }

  /** The program counter after a committed memory instruction. */
  function NextPc(f: Flow, jump: Option<nat>): nat {
    if jump.Some? then jump.value
    else if f.pc == f.top then f.bottom
    else (f.pc + 1) % 32
  }

  /** A fetch from a word never loaded is counted. */
  function CountFetch(w: World, g: nat): (c: seq<Code>)
    requires InWorld(w, g)
    ensures |c| == |w.code|
    ensures forall b :: 0 <= b < |c| ==> c[b].insn == w.code[b].insn && c[b].used == w.code[b].used
  {
    var b := g / 4;
    if w.code[b].used[w.flow[g].pc % 32] then w.code
    else w.code[b := w.code[b].(unwritten := w.code[b].unwritten + 1)]
  }

  /** State-machine bookkeeping once an instruction has been presented. */
  function Retire(sm: Sm, stalled: bool, fromExec: bool, delay: nat): Sm {
    if stalled then sm.(stalled := true)
    else if fromExec then sm.(stalled := false, execPending := false, delay := delay)
    else sm.(stalled := false, delay := if sm.execPending then 0 else delay)
  }

  /** The flow after presenting: stalls and injected non-jumps leave it alone. */
  function RetireFlow(f: Flow, r: Step, fromExec: bool): Flow {
    if r.stalled then f
    else if fromExec then (if r.jump.Some? then f.(pc := r.jump.value) else f)
    else f.(pc := NextPc(f, r.jump))
  }

  /** Present `insn` on state machine `g` and retire it. */
  function PresentInsn(w: World, g: nat, insn: Insn, fromExec: bool): (r: World)
    requires InWorld(w, g)
    ensures InWorld(r, g) && StepBy(w.env, r.env, g)
  {
    var r := ExecOne(w.env, g, insn);
    var delay := DelaySideOf(w.env.sm[g].cfg, insn).delay;
    World(PutSm(r.env, g, Retire(r.env.sm[g], r.stalled, fromExec, delay)),
          w.flow[g := RetireFlow(w.flow[g], r, fromExec)],
          if fromExec then w.code else CountFetch(w, g))
  }

  /** sm_cycle: one state-machine cycle. */
  function SmCycle(w: World, g: nat): (r: World)
    requires InWorld(w, g)
    ensures InWorld(r, g) && StepBy(w.env, r.env, g)
  {
    var sm := Autopull(w.env.sm[g]);
    if sm.delay > 0 then WithSm(w, g, sm.(delay := sm.delay - 1))
    else
      var w1 := WithSm(w, g, sm);
      PresentInsn(w1, g, Presented(w1, g), sm.execPending)
  }

  /** The clock divider in 1/256 units; an integer part of 0 encodes 65536. */
  function Divider(cfg: SmConfig): nat {
    (if cfg.divInt == 0 then 65536 else cfg.divInt) * 256 + cfg.divFrac
  }

  predicate Due(sm: Sm) {
    sm.clkAccum + 256 >= Divider(sm.cfg)
  }

  /** OUT_STICKY: every driven pin stays in this cycle's level contest. */
  function Sticky(sm: Sm): Sm {
    if sm.cfg.sticky then sm.(wrote := sm.wrote + sm.outOe) else sm
  }

  function WithSm(w: World, g: nat, sm: Sm): (r: World)
    requires InWorld(w, g)
    ensures InWorld(r, g) && StepBy(w.env, r.env, g)
  {
    World(PutSm(w.env, g, sm), w.flow, w.code)
  }

  /** A cycle of an enabled state machine, then its sticky re-assertion. */
  function CycleAndStick(w: World, g: nat): (r: World)
    requires InWorld(w, g)
    ensures InWorld(r, g) && StepBy(w.env, r.env, g)
  {
    var r := SmCycle(w, g);
    StepThenPut(w.env, r.env, g, Sticky(r.env.sm[g]));
    WithSm(r, g, Sticky(r.env.sm[g]))
  }

  /** The clock-divider step of a tick. */
  function Ticked(sm: Sm): Sm {
    sm.(clkAccum := if Due(sm) then sm.clkAccum + 256 - Divider(sm.cfg) else sm.clkAccum + 256)
  }

  /** One state machine's share of pio_sim_tick: accumulate, run a cycle when due
      and enabled, re-assert sticky outputs. */
  function Clock(w: World, g: nat): (r: World)
    requires InWorld(w, g)
    ensures InWorld(r, g) && StepBy(w.env, r.env, g)
  {
    var w1 := WithSm(w, g, Ticked(w.env.sm[g]));
    if Due(w.env.sm[g]) && w.env.sm[g].enabled then
      var r := CycleAndStick(w1, g);
      StepThenStep(w.env, w1.env, r.env, g);
      r
    else w1
  }
}
