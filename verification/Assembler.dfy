/** The assembler's three passes over line items: scan (labels and defines), config
    (side-set, wrap) and emit. */
module Assembler {
  import opened Options
  import opened Isa
  import opened Defines

  const MAX_INSNS: nat := 32
  const MAX_SYMBOLS: nat := 32

  /** Which block an IRQ index addresses: bits [4:3] of its field. */
  datatype IrqMode = Own | Previous | Relative | Next

  /** A mnemonic with its keyword operands; its expression operands are texts. */
  datatype Shape =
    | Jump(cond: nat)                               // target
    | AwaitPin(source: nat)                         // polarity, index
    | AwaitIrq(mode: IrqMode)                       // polarity, index
    | InFrom(src: nat)                              // count
    | OutTo(dest: nat)                              // count
    | SetTo(dest: nat)                              // value
    | RaiseIrq(clear: bool, wait: bool, mode: IrqMode) // index
    | Plain(op: Op)                                 // no expression operand

  /** An instruction line; delay and side-set values are texts too. */
  datatype Instr = Instr(shape: Shape, args: seq<string>, delay: Option<string>, side: Option<string>)

  /** A label declaration; `legal` covers its length and leading character. */
  datatype LabelDecl = LabelDecl(name: string, legal: bool)

  /** A cleaned source line. */
  datatype Item =
    | Program(name: Option<string>)
    | DefineLine(isPublic: bool, id: string, text: string, legal: bool)
    | SideSet(bits: string, opt: bool)
    | WrapTarget
    | Wrap
    | Word(text: string)
    | Meta(legal: bool)
    | Line(decl: Option<LabelDecl>, insn: Option<Instr>)

  type Insns = s: seq<Insn> | |s| == MAX_INSNS witness seq(32, _ => 0)

  /** Everything the passes fill in. `top` is None until a .wrap is seen. */
  datatype Image = Image(
    sy: Symbols, memo: Memo, sideBits: nat, sideOpt: bool, bottom: nat, top: Option<nat>, insns: Insns)

  datatype PassState = PassState(inProgram: bool, seen: bool, done: bool, idx: nat, im: Image) {
    predicate Ready(pass: nat) { pass > 0 ==> im.memo.Fits(im.sy) }
  }

  /** A slot number as the 64-bit value an expression sees. */
  function SlotWord(k: nat): bv64 {
    if k == 0 then 0 else SlotWord(k - 1) + 1
  }

  function Number(v: bv32): nat { v as nat }

  // ---- emitting ------------------------------------------------------------------------

  /** Combine an operation with its delay/side-set field. */
  function Encode(im: Image, op: Op, delay: nat, side: Option<nat>): Option<Insn> {
    var f := PackDelaySide(im.sideBits, im.sideOpt, delay, if side.Some? then side.value else 0, side.Some?);
    if Encodable(op) && f.Packed? && f.field < 32 then Some(Assemble(op, f.field)) else None
  }

  function ModeField(m: IrqMode): nat {
    match m
    case Own => 0
    case Previous => 8
    case Relative => 16
    case Next => 24
  }

  /** The mnemonic encoders' range checks: the operation, or an error. */
  function Operation(shape: Shape, v: seq<nat>): Option<Op> {
    match shape
    case Jump(cond) => if |v| == 1 && v[0] <= 31 then Some(Jmp(cond, v[0])) else None
    case AwaitPin(source) =>
      if |v| == 2 && v[0] <= 1 && source != 2 && v[1] <= (if source == 3 then 3 else 31) then Some(Wait(v[0], source, v[1]))
      else None
    case AwaitIrq(mode) => if |v| == 2 && v[0] <= 1 && v[1] <= 7 then Some(Wait(v[0], 2, ModeField(mode) + v[1])) else None
    case InFrom(src) => if |v| == 1 && 1 <= v[0] <= 32 then Some(In(src, v[0])) else None
    case OutTo(dest) => if |v| == 1 && 1 <= v[0] <= 32 then Some(Op.Out(dest, v[0])) else None
    case SetTo(dest) => if |v| == 1 && v[0] <= 31 then Some(Set(dest, v[0])) else None
    case RaiseIrq(clear, wait, mode) => if |v| == 1 && v[0] <= 7 then Some(Irq(clear, wait, ModeField(mode) + v[0])) else None
    case Plain(op) => if v == [] then Some(op) else None
  }

  /** Resolve texts in turn, stopping at the first that fails. */
  function ResolveAll(sy: Symbols, texts: seq<string>, m: Memo): (r: (Option<seq<nat>>, Memo))
    requires m.Fits(sy)
    ensures r.1.Fits(sy) && (r.0.Some? ==> |r.0.value| == |texts|)
    decreases texts
  {
    if texts == [] then (Some([]), m)
    else
      var t := ResolveText(sy, texts[0], m);
      if !t.ok then (None, t.memo)
      else
        var rest := ResolveAll(sy, texts[1..], t.memo);
        if rest.0.None? then rest else (Some([Number(t.v)] + rest.0.value), rest.1)
  }

  function Listed(t: Option<string>): seq<string> {
    if t.Some? then [t.value] else []
  }

  /** All the texts of an instruction, in the order they are resolved. */
  function Texts(insn: Instr): seq<string> {
    Listed(insn.delay) + Listed(insn.side) + insn.args
  }

  /** The same list of values cut up again: delay (0 if absent), side, operands. */
  function DelayIn(insn: Instr, v: seq<nat>): nat
    requires |v| == |Texts(insn)|
  {
    if insn.delay.Some? then v[0] else 0
  }

  function SideIn(insn: Instr, v: seq<nat>): Option<nat>
    requires |v| == |Texts(insn)|
  {
    if insn.side.Some? then Some(v[|Listed(insn.delay)|]) else None
  }

  function ArgsIn(insn: Instr, v: seq<nat>): seq<nat>
    requires |v| == |Texts(insn)|
  {
    v[|Listed(insn.delay)| + |Listed(insn.side)|..]
  }

  /** assemble_insn once its texts have values. */
  function EncodeWith(im: Image, insn: Instr, v: seq<nat>): Option<Insn>
    requires |v| == |Texts(insn)|
  {
    var op := Operation(insn.shape, ArgsIn(insn, v));
    if op.None? then None else Encode(im, op.value, DelayIn(insn, v), SideIn(insn, v))
  }

  /** assemble_insn: the word, and the memo after resolving every text. */
  function EmitInsn(im: Image, insn: Instr): (r: (Option<Insn>, Memo))
    requires im.memo.Fits(im.sy)
    ensures r.1.Fits(im.sy)
  {
    var v := ResolveAll(im.sy, Texts(insn), im.memo);
    (if v.0.Some? then EncodeWith(im, insn, v.0.value) else None, v.1)
  }

  function EmitWord(im: Image, text: string): (r: (Option<Insn>, Memo))
    requires im.memo.Fits(im.sy)
    ensures r.1.Fits(im.sy)
  {
    var t := ResolveText(im.sy, text, im.memo);
    (if t.ok && Number(t.v) < INSN_LIMIT then Some(Number(t.v)) else None, t.memo)
  }

  /** Store a word in the next slot. */
  function Store(ps: PassState, w: (Option<Insn>, Memo)): (r: Option<PassState>)
    requires ps.idx < MAX_INSNS
  {
    if w.0.None? then None
    else Some(ps.(im := ps.im.(insns := ps.im.insns[ps.idx := w.0.value], memo := w.1)))
  }

  // ---- one line ----------------------------------------------------------------------------

  function HandleProgram(ps: PassState, want: Option<string>, name: Option<string>): PassState {
    if ps.seen && ps.inProgram then ps.(done := true)
    else ps.(seen := true, inProgram := want.None? || name == want, idx := 0)
  }

  /** .define: declared in the scan pass; a private one of another program is skipped. */
  function HandleDefine(pass: nat, ps: PassState, isPublic: bool, name: string, text: string, legal: bool): Option<PassState> {
    var sy := ps.im.sy;
    if pass != 0 || (!isPublic && ps.seen && !ps.inProgram) then Some(ps)
    else if !legal || FindDefine(sy.defines, name, 0).Some? || FindLabel(sy.labels, name, 0).Some?
            || |sy.defines| >= MAX_SYMBOLS then None
    else Some(ps.(im := ps.im.(sy := sy.(defines := sy.defines + [Define(name, text)]))))
  }

  /** handle_label: recorded in the scan pass with the current slot. */
  function HandleLabel(pass: nat, ps: PassState, l: LabelDecl): Option<PassState> {
    var sy := ps.im.sy;
    if pass != 0 then Some(ps)
    else if |sy.labels| >= MAX_SYMBOLS || !l.legal || FindLabel(sy.labels, l.name, 0).Some?
            || FindDefine(sy.defines, l.name, 0).Some? then None
    else Some(ps.(im := ps.im.(sy := sy.(labels := sy.labels + [Label(l.name, SlotWord(ps.idx))]))))
  }

  /** .side_set: data bits and the optional enable bit share five bits. */
  function HandleSideSet(ps: PassState, bits: string, opt: bool): (r: Option<PassState>)
    requires ps.Ready(1)
    ensures r.Some? ==> r.value.Ready(1)
  {
    var t := ResolveText(ps.im.sy, bits, ps.im.memo);
    var n := Number(t.v) + if opt then 1 else 0;
    if !t.ok || n > 5 then None
    else Some(ps.(im := ps.im.(memo := t.memo, sideBits := n, sideOpt := opt)))
  }

  function HandleWrap(ps: PassState): Option<PassState> {
    if ps.idx == 0 || ps.im.top.Some? then None else Some(ps.(im := ps.im.(top := Some(ps.idx - 1))))
  }

  /** A slot is taken in every pass; the word is made in the emit pass. */
  function TakeSlot(pass: nat, ps: PassState, it: Item): (r: Option<PassState>)
    requires ps.Ready(pass) && (it.Word? || (it.Line? && it.insn.Some?))
    ensures r.Some? ==> r.value.Ready(pass)
  {
    if ps.idx >= MAX_INSNS then None
    else
      var stored :=
        if pass != 2 then Some(ps)
        else Store(ps, if it.Word? then EmitWord(ps.im, it.text) else EmitInsn(ps.im, it.insn.value));
      if stored.None? then None else Some(stored.value.(idx := ps.idx + 1))
  }

  /** process_line. */
  function ProcessLine(pass: nat, want: Option<string>, ps: PassState, it: Item): (r: Option<PassState>)
    requires pass <= 2 && ps.Ready(pass)
    ensures r.Some? ==> r.value.Ready(pass)
  {
    match it
    case Program(name) => Some(HandleProgram(ps, want, name))
    case DefineLine(isPublic, name, text, legal) => HandleDefine(pass, ps, isPublic, name, text, legal)
    case SideSet(bits, opt) => if ps.inProgram && pass == 1 then HandleSideSet(ps, bits, opt) else Some(ps)
    case WrapTarget => if ps.inProgram && pass == 1 then Some(ps.(im := ps.im.(bottom := ps.idx))) else Some(ps)
    case Wrap => if ps.inProgram && pass == 1 then HandleWrap(ps) else Some(ps)
    case Meta(legal) => if ps.inProgram && pass == 1 && !legal then None else Some(ps)
    case Word(_) => if ps.inProgram then TakeSlot(pass, ps, it) else Some(ps)
    case Line(decl, insn) =>
      if !ps.inProgram then Some(ps)
      else
        var labelled := if decl.Some? then HandleLabel(pass, ps, decl.value) else Some(ps);
        if labelled.None? || insn.None? then labelled else TakeSlot(pass, labelled.value, it)
  }

  // ---- passes --------------------------------------------------------------------------------

  function Start(im: Image): PassState { PassState(false, false, false, 0, im) }

  /** run_pass over the first lines; nothing happens after the selected program. */
  function RunPass(pass: nat, want: Option<string>, items: seq<Item>, im: Image): (r: Option<PassState>)
    requires pass <= 2 && Start(im).Ready(pass)
    ensures r.Some? ==> r.value.Ready(pass)
  {
    if items == [] then Some(Start(im))
    else
      var r := RunPass(pass, want, items[..|items| - 1], im);
      if r.None? || r.value.done then r else ProcessLine(pass, want, r.value, items[|items| - 1])
  }

  function Falses(n: nat): (s: seq<bool>)
    ensures |s| == n && forall i :: 0 <= i < n ==> !s[i]
  {
    if n == 0 then [] else Falses(n - 1) + [false]
  }

  function Nones(n: nat): (s: seq<Option<bv32>>)
    ensures |s| == n && forall i :: 0 <= i < n ==> s[i].None?
  {
    if n == 0 then [] else Nones(n - 1) + [None]
  }

  function Zeroed(n: nat): (s: seq<Insn>)
    ensures |s| == n
  {
    if n == 0 then [] else Zeroed(n - 1) + [0]
  }

  function Blank(): Image {
    Image(Symbols([], []), Memo([], []), 0, false, 0, None, Zeroed(MAX_INSNS))
  }

  /** The image between the scan and the config pass: nothing resolved yet. */
  function Scanned(im: Image): (r: Image)
    ensures r.memo.Fits(r.sy)
  {
    im.(memo := Memo(Falses(|im.sy.defines|), Nones(|im.sy.defines|)))
  }

  datatype Output = Output(count: nat, bottom: nat, top: nat, im: Image)

  /** After the config pass: the count and the wrap window, or an error. */
  function Configured(ps: PassState): Option<Output> {
    var top := if ps.im.top.Some? then ps.im.top.value else ps.idx - 1;
    if ps.idx == 0 || ps.im.bottom >= ps.idx || top < 0 then None
    else Some(Output(ps.idx, ps.im.bottom, top, ps.im))
  }

  /** pio_asm_assemble. */
  function AssembleItems(want: Option<string>, items: seq<Item>): (r: Option<Output>) {
    var p0 := RunPass(0, want, items, Blank());
    if p0.None? then None
    else
      var p1 := RunPass(1, want, items, Scanned(p0.value.im));
      var o := if p1.None? then None else Configured(p1.value);
      if o.None? then None
      else
        var p2 := RunPass(2, want, items, o.value.im);
        if p2.None? then None else Some(o.value.(im := p2.value.im))
  }
}
