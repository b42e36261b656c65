/** The passes agree: labels recorded by the scan name the slots the emit pass
    fills, the wrap window lies inside the program, and every emitted word decodes
    to the instruction its line asked for. */
module AssemblerPasses {
  import opened Options
  import opened Isa
  import opened Expr
  import opened Defines
  import opened Assembler

  // ---- where a line stands, without running a pass --------------------------------------

  /** Program selection and slot count after some lines. */
  datatype Progress = Progress(inProgram: bool, seen: bool, done: bool, idx: nat)

  predicate TakesSlot(it: Item) {
    it.Word? || (it.Line? && it.insn.Some?)
  }

  function Track(want: Option<string>, s: Progress, it: Item): Progress {
    if s.done then s
    else if it.Program? then
      if s.seen && s.inProgram then s.(done := true) else Progress(want.None? || it.name == want, true, false, 0)
    else if s.inProgram && TakesSlot(it) then s.(idx := s.idx + 1)
    else s
  }

  function PlaceAt(want: Option<string>, items: seq<Item>): Progress {
    if items == [] then Progress(false, false, false, 0)
    else Track(want, PlaceAt(want, items[..|items| - 1]), items[|items| - 1])
  }

  /** Line `i` belongs to the selected program. */
  predicate Active(want: Option<string>, items: seq<Item>, i: nat)
    requires i < |items|
  {
    PlaceAt(want, items[..i]).inProgram && !PlaceAt(want, items[..i]).done
  }

  /** The slot at line `i`. */
  function Slot(want: Option<string>, items: seq<Item>, i: nat): nat
    requires i <= |items|
  {
    PlaceAt(want, items[..i]).idx
  }

  predicate AtPlace(ps: PassState, s: Progress) {
    ps.inProgram == s.inProgram && ps.seen == s.seen && ps.done == s.done && ps.idx == s.idx
  }

  lemma LineTracks(pass: nat, want: Option<string>, ps: PassState, it: Item, s: Progress)
    requires pass <= 2 && ps.Ready(pass) && AtPlace(ps, s) && !s.done && ProcessLine(pass, want, ps, it).Some?
    ensures AtPlace(ProcessLine(pass, want, ps, it).value, Track(want, s, it))
    ensures ps.idx <= MAX_INSNS ==> ProcessLine(pass, want, ps, it).value.idx <= MAX_INSNS
  {
    hide EmitInsn, EmitWord, ResolveText, FindDefine, FindLabel, SlotWord;
  }

  /** Every pass that gets through some lines stands at the same place. */
  lemma {:induction false} PassesAgree(pass: nat, want: Option<string>, items: seq<Item>, im: Image)
    requires pass <= 2 && Start(im).Ready(pass) && RunPass(pass, want, items, im).Some?
    ensures AtPlace(RunPass(pass, want, items, im).value, PlaceAt(want, items))
    ensures RunPass(pass, want, items, im).value.idx <= MAX_INSNS
    decreases |items|
  {
    hide ProcessLine;
    if items != [] {
      var init := items[..|items| - 1];
      PassesAgree(pass, want, init, im);
      var ps := RunPass(pass, want, init, im).value;
      if !ps.done { LineTracks(pass, want, ps, items[|items| - 1], PlaceAt(want, init)); }
    }
  }

  // ---- config: the wrap window -----------------------------------------------------------

  /** What the config pass keeps: the wrap marks never run ahead of the slots. */
  predicate WrapInside(ps: PassState) {
    ps.im.bottom <= ps.idx && (ps.im.top.Some? ==> ps.im.top.value < ps.idx)
  }

  /** Before the program is entered the marks are untouched. */
  predicate WrapSane(ps: PassState) {
    if ps.inProgram then ps.seen && WrapInside(ps) else ps.im.bottom == 0 && ps.im.top.None?
  }

  lemma LineKeepsWrap(want: Option<string>, ps: PassState, it: Item)
    requires ps.Ready(1) && !ps.done && WrapSane(ps) && ProcessLine(1, want, ps, it).Some?
    ensures WrapSane(ProcessLine(1, want, ps, it).value)
  {
    hide EmitInsn, EmitWord, ResolveText, FindDefine, FindLabel, SlotWord;
  }

  lemma {:induction false} ConfigKeepsWrap(want: Option<string>, items: seq<Item>, im: Image)
    requires Start(im).Ready(1) && im.bottom == 0 && im.top.None? && RunPass(1, want, items, im).Some?
    ensures WrapSane(RunPass(1, want, items, im).value)
    decreases |items|
  {
    hide ProcessLine;
    if items != [] {
      ConfigKeepsWrap(want, items[..|items| - 1], im);
      var ps := RunPass(1, want, items[..|items| - 1], im).value;
      if !ps.done { LineKeepsWrap(want, ps, items[|items| - 1]); }
    }
  }

  lemma LineKeepsMarks(want: Option<string>, ps: PassState, it: Item)
    requires ps.Ready(0) && ProcessLine(0, want, ps, it).Some?
    ensures var r := ProcessLine(0, want, ps, it).value.im; r.bottom == ps.im.bottom && r.top == ps.im.top
  {
    hide FindDefine, FindLabel, SlotWord;
  }

  lemma {:induction false} ScanKeepsMarks(want: Option<string>, items: seq<Item>, im: Image)
    requires RunPass(0, want, items, im).Some?
    ensures var r := RunPass(0, want, items, im).value.im; r.bottom == im.bottom && r.top == im.top
    decreases |items|
  {
    hide ProcessLine;
    if items != [] {
      ScanKeepsMarks(want, items[..|items| - 1], im);
      var ps := RunPass(0, want, items[..|items| - 1], im).value;
      if !ps.done { LineKeepsMarks(want, ps, items[|items| - 1]); }
    }
  }

  /** On success the program has 1 to 32 instructions and its wrap window lies
      inside it. */
  lemma WrapWithinProgram(want: Option<string>, items: seq<Item>)
    requires AssembleItems(want, items).Some?
    ensures var o := AssembleItems(want, items).value;
            && 0 < o.count <= MAX_INSNS && o.count == PlaceAt(want, items).idx
            && o.bottom < o.count && o.top < o.count
  {
    hide RunPass;
    var p0 := RunPass(0, want, items, Blank()).value;
    ScanKeepsMarks(want, items, Blank());
    ConfigKeepsWrap(want, items, Scanned(p0.im));
    PassesAgree(1, want, items, Scanned(p0.im));
  }

  // ---- scan: the labels -----------------------------------------------------------------------

  lemma {:induction false} FindAppended(ls: seq<Label>, l: Label, id: string, i: nat)
    requires i <= |ls|
    ensures FindLabel(ls + [l], id, i) ==
            if FindLabel(ls, id, i).Some? then FindLabel(ls, id, i) else if l.name == id then Some(l.index) else None
    decreases |ls| - i
  {
    if i < |ls| { FindAppended(ls, l, id, i + 1); }
  }

  lemma {:induction false} FindDefineAppended(ds: seq<Define>, d: Define, id: string, i: nat)
    requires i <= |ds| && d.name != id && FindDefine(ds, id, i).None?
    ensures FindDefine(ds + [d], id, i).None?
    decreases |ds| - i
  {
    if i < |ds| { FindDefineAppended(ds, d, id, i + 1); }
  }

  /** A name that is a label with this slot, and not a define. */
  predicate Names(sy: Symbols, id: string, slot: nat) {
    FindLabel(sy.labels, id, 0) == Some(SlotWord(slot)) && FindDefine(sy.defines, id, 0).None?
  }

  predicate Declares(it: Item, id: string) {
    it.Line? && it.decl.Some? && it.decl.value.name == id
  }

  /** Declaring a symbol keeps every label that was there. */
  lemma LineKeepsLabels(want: Option<string>, ps: PassState, it: Item, id: string, slot: nat)
    requires ps.Ready(0) && ProcessLine(0, want, ps, it).Some? && Names(ps.im.sy, id, slot)
    ensures Names(ProcessLine(0, want, ps, it).value.im.sy, id, slot)
  {
    hide SlotWord, FindLabel, FindDefine;
    var sy := ps.im.sy;
    if it.Line? && it.decl.Some? {
      FindAppended(sy.labels, Label(it.decl.value.name, SlotWord(ps.idx)), id, 0);
    } else if it.DefineLine? && it.id != id {
      FindDefineAppended(sy.defines, Define(it.id, it.text), id, 0);
    }
  }

  lemma LineRecords(want: Option<string>, ps: PassState, it: Item, id: string)
    requires ps.Ready(0) && ProcessLine(0, want, ps, it).Some? && ps.inProgram && Declares(it, id)
    ensures Names(ProcessLine(0, want, ps, it).value.im.sy, id, ps.idx)
  {
    hide SlotWord, FindLabel, FindDefine;
    FindAppended(ps.im.sy.labels, Label(id, SlotWord(ps.idx)), id, 0);
  }

  /** The label table after the scan maps every declared label to the slot of the
      line that declares it. */
  lemma {:induction false} ScanRecords(want: Option<string>, items: seq<Item>, im: Image, j: nat, id: string)
    requires RunPass(0, want, items, im).Some? && j < |items| && Active(want, items, j) && Declares(items[j], id)
    ensures Names(RunPass(0, want, items, im).value.im.sy, id, Slot(want, items, j))
    decreases |items|
  {
    hide ProcessLine, Names;
    var n := |items| - 1;
    var init := items[..n];
    PassesAgree(0, want, init, im);
    var ps := RunPass(0, want, init, im).value;
    if j == n {
      LineRecords(want, ps, items[n], id);
    } else {
      assert init[..j] == items[..j];
      ScanRecords(want, init, im, j, id);
      if !ps.done { LineKeepsLabels(want, ps, items[n], id, Slot(want, items, j)); }
    }
  }

  /** And it maps nothing else: a name in the table is declared by an active line. */
  lemma {:induction false} ScanOnlyDeclared(want: Option<string>, items: seq<Item>, im: Image, id: string) returns (j: nat)
    requires RunPass(0, want, items, im).Some? && FindLabel(im.sy.labels, id, 0).None?
    requires FindLabel(RunPass(0, want, items, im).value.im.sy.labels, id, 0).Some?
    ensures j < |items| && Active(want, items, j) && Declares(items[j], id)
    decreases |items|
  {
    hide ProcessLine, FindLabel;
    var n := |items| - 1;
    var init := items[..n];
    var ps := RunPass(0, want, init, im).value;
    PassesAgree(0, want, init, im);
    if FindLabel(ps.im.sy.labels, id, 0).Some? {
      j := ScanOnlyDeclared(want, init, im, id);
      assert init[..j] == items[..j];
    } else {
      NewLabel(want, ps, items[n], id);
      j := n;
    }
  }

  lemma NewLabel(want: Option<string>, ps: PassState, it: Item, id: string)
    requires ps.Ready(0) && ProcessLine(0, want, ps, it).Some? && FindLabel(ps.im.sy.labels, id, 0).None?
    requires FindLabel(ProcessLine(0, want, ps, it).value.im.sy.labels, id, 0).Some?
    ensures ps.inProgram && Declares(it, id)
  {
    hide SlotWord, FindLabel, FindDefine;
    if it.Line? && it.decl.Some? {
      FindAppended(ps.im.sy.labels, Label(it.decl.value.name, SlotWord(ps.idx)), id, 0);
    }
  }

  // ---- later passes leave the symbols alone -------------------------------------------------------

  lemma LineKeepsSymbols(pass: nat, want: Option<string>, ps: PassState, it: Item)
    requires 1 <= pass <= 2 && ps.Ready(pass) && ProcessLine(pass, want, ps, it).Some?
    ensures var r := ProcessLine(pass, want, ps, it).value.im;
            r.sy == ps.im.sy && (pass == 2 ==> r.sideBits == ps.im.sideBits && r.sideOpt == ps.im.sideOpt)
  {
    hide EmitInsn, EmitWord, ResolveText, FindDefine, FindLabel, SlotWord;
  }

  lemma {:induction false} PassKeepsSymbols(pass: nat, want: Option<string>, items: seq<Item>, im: Image)
    requires 1 <= pass <= 2 && Start(im).Ready(pass) && RunPass(pass, want, items, im).Some?
    ensures var r := RunPass(pass, want, items, im).value.im;
            r.sy == im.sy && (pass == 2 ==> r.sideBits == im.sideBits && r.sideOpt == im.sideOpt)
    decreases |items|
  {
    hide ProcessLine;
    if items != [] {
      PassKeepsSymbols(pass, want, items[..|items| - 1], im);
      var ps := RunPass(pass, want, items[..|items| - 1], im).value;
      if !ps.done { LineKeepsSymbols(pass, want, ps, items[|items| - 1]); }
    }
  }

  // ---- memo stays correct through config and emit ---------------------------------------------------

  ghost predicate Idle(im: Image) {
    && im.memo.Fits(im.sy) && Correct(im.sy, im.memo)
    && forall i :: 0 <= i < |im.memo.visiting| ==> !im.memo.visiting[i]
  }

  lemma TextIdle(im: Image, text: string)
    requires Idle(im)
    ensures Idle(im.(memo := ResolveText(im.sy, text, im.memo).memo))
  {
    hide ResolveText, Correct;
    ResolveIsDenotation(im.sy, text, im.memo);
  }

  /** Resolving a list of texts keeps the memo idle, and each value is a denotation. */
  lemma {:induction false} AllIdle(im: Image, texts: seq<string>)
    requires Idle(im)
    ensures im.memo.Fits(im.sy)
    ensures var r := ResolveAll(im.sy, texts, im.memo);
            Idle(im.(memo := r.1)) && (r.0.Some? ==> DenotesAll(im.sy, texts, r.0.value))
    decreases texts
  {
    IdleFits(im);
    hide ResolveText, Idle, Denotes, Number;
    if texts != [] {
      var t := ResolveText(im.sy, texts[0], im.memo);
      TextIdle(im, texts[0]);
      if t.ok {
        ResolvedDenotes(im, texts[0]);
        AllIdle(im.(memo := t.memo), texts[1..]);
      }
    }
  }

  lemma EmitIdle(im: Image, it: Item)
    requires Idle(im) && TakesSlot(it)
    ensures im.memo.Fits(im.sy)
    ensures var r := if it.Word? then EmitWord(im, it.text) else EmitInsn(im, it.insn.value);
            Idle(im.(memo := r.1))
  {
    IdleFits(im);
    hide ResolveText, Idle, ResolveAll, EncodeWith;
    if it.Word? { TextIdle(im, it.text); } else { AllIdle(im, Texts(it.insn.value)); }
  }

  lemma IdleDepends(im: Image, r: Image)
    requires Idle(im) && r.sy == im.sy && r.memo == im.memo
    ensures Idle(r)
  {
  }

  lemma SlotKeepsIdle(pass: nat, want: Option<string>, ps: PassState, it: Item)
    requires 1 <= pass <= 2 && ps.Ready(pass) && Idle(ps.im) && TakesSlot(it) && ProcessLine(pass, want, ps, it).Some?
    ensures Idle(ProcessLine(pass, want, ps, it).value.im)
  {
    EmitIdle(ps.im, it);
    var e := if it.Word? then EmitWord(ps.im, it.text) else EmitInsn(ps.im, it.insn.value);
    hide EmitInsn, EmitWord, Idle, FindDefine, FindLabel;
    IdleDepends(if ps.inProgram && pass == 2 then ps.im.(memo := e.1) else ps.im, ProcessLine(pass, want, ps, it).value.im);
  }

  lemma SideSetKeepsIdle(ps: PassState, bits: string, opt: bool)
    requires ps.Ready(1) && Idle(ps.im) && HandleSideSet(ps, bits, opt).Some?
    ensures Idle(HandleSideSet(ps, bits, opt).value.im)
  {
    TextIdle(ps.im, bits);
    hide ResolveText, Idle;
    IdleDepends(ps.im.(memo := ResolveText(ps.im.sy, bits, ps.im.memo).memo), HandleSideSet(ps, bits, opt).value.im);
  }

  lemma LineKeepsIdle(pass: nat, want: Option<string>, ps: PassState, it: Item)
    requires 1 <= pass <= 2 && ps.Ready(pass) && Idle(ps.im) && ProcessLine(pass, want, ps, it).Some?
    ensures Idle(ProcessLine(pass, want, ps, it).value.im)
  {
    hide Idle, FindDefine, FindLabel, HandleSideSet, EmitInsn, EmitWord;
    if TakesSlot(it) {
      SlotKeepsIdle(pass, want, ps, it);
    } else if it.SideSet? && ps.inProgram && pass == 1 {
      SideSetKeepsIdle(ps, it.bits, it.opt);
    } else {
      IdleDepends(ps.im, ProcessLine(pass, want, ps, it).value.im);
    }
  }

  lemma {:induction false} PassKeepsIdle(pass: nat, want: Option<string>, items: seq<Item>, im: Image)
    requires 1 <= pass <= 2 && Start(im).Ready(pass) && Idle(im) && RunPass(pass, want, items, im).Some?
    ensures Idle(RunPass(pass, want, items, im).value.im)
    decreases |items|
  {
    hide ProcessLine, Idle;
    if items != [] {
      PassKeepsIdle(pass, want, items[..|items| - 1], im);
      var ps := RunPass(pass, want, items[..|items| - 1], im).value;
      if !ps.done { LineKeepsIdle(pass, want, ps, items[|items| - 1]); }
    }
  }

  // ---- emit: the words --------------------------------------------------------------------------------

  /** Word `w` carries this operation, delay and side-set value. */
  predicate Carries(im: Image, w: Insn, op: Op, delay: nat, side: Option<nat>) {
    var d := DecodeDelaySide(im.sideBits, im.sideOpt, DelayField(w));
    && Decode(w) == op && d.delay == delay
    && (ClampSide(im.sideBits) > 0 ==> d.enabled == side.Some?)
    && (side.Some? ==> d.side == side.value)
  }

  /** Keyword operands come from tables, so they are in range. */
  predicate Keyworded(shape: Shape) {
    match shape
    case Jump(cond) => cond < 8
    case AwaitPin(source) => source < 4
    case InFrom(src) => src < 8
    case OutTo(dest) => dest < 8
    case SetTo(dest) => dest < 8
    case Plain(op) => Encodable(op)
    case _ => true
  }

  /** The encoders' own range checks are exactly what encoding needs. */
  lemma CheckedIsEncodable(shape: Shape, v: seq<nat>)
    requires Keyworded(shape) && Operation(shape, v).Some?
    ensures Encodable(Operation(shape, v).value)
  {
  }

  lemma EncodeCarries(im: Image, op: Op, delay: nat, side: Option<nat>)
    requires Encode(im, op, delay, side).Some?
    ensures Carries(im, Encode(im, op, delay, side).value, op, delay, side)
  {
    hide Decode, Assemble, DelayField, DecodeDelaySide, PackDelaySide, Encodable;
    var v := if side.Some? then side.value else 0;
    PackDecode(im.sideBits, im.sideOpt, delay, v, side.Some?);
    EncodeDecode(op, PackDelaySide(im.sideBits, im.sideOpt, delay, v, side.Some?).field);
  }

  ghost predicate Denotes(sy: Symbols, text: string, v: nat) {
    exists n: nat :: TextValue(sy, text, n).Some? && Number(TextValue(sy, text, n).value) == v
  }

  ghost predicate DenotesAll(sy: Symbols, texts: seq<string>, v: seq<nat>) {
    |v| == |texts| && forall k :: 0 <= k < |texts| ==> Denotes(sy, texts[k], v[k])
  }

  /** `w` is the instruction with `v` for its texts: operation, delay, side value. */
  predicate Built(im: Image, insn: Instr, v: seq<nat>, w: Insn) {
    && |v| == |Texts(insn)|
    && var op := Operation(insn.shape, ArgsIn(insn, v));
       op.Some? && Carries(im, w, op.value, DelayIn(insn, v), SideIn(insn, v))
  }

  /** What the word of a line must be: the operation its operand texts denote, with
      the delay and side value theirs denote, or the raw value a .word denotes. */
  ghost predicate Emitted(im: Image, it: Item, w: Insn)
    requires TakesSlot(it)
  {
    if it.Word? then Denotes(im.sy, it.text, w)
    else exists v :: DenotesAll(im.sy, Texts(it.insn.value), v) && Built(im, it.insn.value, v, w)
  }

  lemma ResolvedDenotes(im: Image, text: string)
    requires Idle(im) && ResolveText(im.sy, text, im.memo).ok
    ensures Denotes(im.sy, text, Number(ResolveText(im.sy, text, im.memo).v))
  {
    ResolveIsDenotation(im.sy, text, im.memo);
    hide ResolveText, TextValue, Correct, Number;
    var n: nat :| TextValue(im.sy, text, n).Some?;
  }

  lemma EmitMeans(im: Image, it: Item)
    requires Idle(im) && TakesSlot(it)
    ensures im.memo.Fits(im.sy)
    ensures var r := if it.Word? then EmitWord(im, it.text) else EmitInsn(im, it.insn.value);
            r.0.Some? ==> Emitted(im, it, r.0.value)
  {
    IdleFits(im);
    hide Idle, ResolveText, ResolveAll, EncodeWith, Carries, Denotes, Number, Texts, Built, DenotesAll;
    if it.Word? {
      if ResolveText(im.sy, it.text, im.memo).ok { ResolvedDenotes(im, it.text); }
    } else {
      var insn := it.insn.value;
      AllIdle(im, Texts(insn));
      var v := ResolveAll(im.sy, Texts(insn), im.memo).0;
      if v.Some? && EncodeWith(im, insn, v.value).Some? { EncodeBuilds(im, insn, v.value); }
    }
  }

  lemma EncodeBuilds(im: Image, insn: Instr, v: seq<nat>)
    requires |v| == |Texts(insn)| && EncodeWith(im, insn, v).Some?
    ensures Built(im, insn, v, EncodeWith(im, insn, v).value)
  {
    hide Carries, Encode, Operation, ArgsIn, DelayIn, SideIn;
    EncodeCarries(im, Operation(insn.shape, ArgsIn(insn, v)).value, DelayIn(insn, v), SideIn(insn, v));
  }

  lemma IdleFits(im: Image)
    requires Idle(im)
    ensures im.memo.Fits(im.sy)
  {
  }

  lemma EmittedDepends(im: Image, r: Image, it: Item, w: Insn)
    requires TakesSlot(it) && Emitted(im, it, w)
    requires r.sy == im.sy && r.sideBits == im.sideBits && r.sideOpt == im.sideOpt
    ensures Emitted(r, it, w)
  {
    hide Decode, DelayField, DecodeDelaySide, Denotes, DenotesAll, Texts, Operation, ArgsIn, DelayIn, SideIn;
    if it.Line? {
      var v :| DenotesAll(im.sy, Texts(it.insn.value), v) && Built(im, it.insn.value, v, w);
      assert Built(r, it.insn.value, v, w);
    }
  }

  /** The emit pass on a slot line: its word goes to the current slot. */
  lemma LineEmits(want: Option<string>, ps: PassState, it: Item)
    requires ps.Ready(2) && Idle(ps.im) && ps.inProgram && TakesSlot(it) && ProcessLine(2, want, ps, it).Some?
    ensures var r := ProcessLine(2, want, ps, it).value;
            ps.idx < MAX_INSNS && Emitted(ps.im, it, r.im.insns[ps.idx])
  {
    hide Emitted, EmitWord, EmitInsn, Idle;
    IdleFits(ps.im);
    EmitMeans(ps.im, it);
    LineStores(want, ps, it);
  }

  /** Where the emit pass puts the word it made. */
  lemma LineStores(want: Option<string>, ps: PassState, it: Item)
    requires ps.Ready(2) && ps.im.memo.Fits(ps.im.sy) && ps.inProgram && TakesSlot(it) && ProcessLine(2, want, ps, it).Some?
    ensures var e := if it.Word? then EmitWord(ps.im, it.text) else EmitInsn(ps.im, it.insn.value);
            && ps.idx < MAX_INSNS && e.0.Some?
            && ProcessLine(2, want, ps, it).value.im.insns[ps.idx] == e.0.value
  {
    hide EmitWord, EmitInsn;
  }

  /** Other slots keep their words. */
  lemma LineKeepsSlots(want: Option<string>, ps: PassState, it: Item, k: nat)
    requires ps.Ready(2) && k < ps.idx && k < MAX_INSNS && ProcessLine(2, want, ps, it).Some?
    ensures ProcessLine(2, want, ps, it).value.im.insns[k] == ps.im.insns[k]
  {
    hide EmitWord, EmitInsn, ResolveText;
  }

  /** Slots only grow inside the selected program. */
  lemma {:induction false} SlotsGrow(want: Option<string>, items: seq<Item>, i: nat)
    requires i < |items| && Active(want, items, i) && TakesSlot(items[i])
    ensures PlaceAt(want, items).inProgram && PlaceAt(want, items).seen
    ensures Slot(want, items, i) < PlaceAt(want, items).idx
    decreases |items|
  {
    var n := |items| - 1;
    var init := items[..n];
    if i < n {
      assert init[..i] == items[..i];
      SlotsGrow(want, init, i);
    } else {
      InProgramSeen(want, init);
    }
  }

  lemma {:induction false} InProgramSeen(want: Option<string>, items: seq<Item>)
    ensures PlaceAt(want, items).inProgram ==> PlaceAt(want, items).seen
  {
    if items != [] { InProgramSeen(want, items[..|items| - 1]); }
  }

  /** After the emit pass every slot line of the program has its word in its slot. */
  lemma {:induction false} EmitFills(want: Option<string>, items: seq<Item>, im: Image, i: nat)
    requires Start(im).Ready(2) && Idle(im) && RunPass(2, want, items, im).Some?
    requires i < |items| && Active(want, items, i) && TakesSlot(items[i])
    ensures Slot(want, items, i) < MAX_INSNS
    ensures Emitted(im, items[i], RunPass(2, want, items, im).value.im.insns[Slot(want, items, i)])
    decreases |items|
  {
    hide ProcessLine, Emitted, Idle, TakesSlot;
    var n := |items| - 1;
    var init := items[..n];
    PassesAgree(2, want, init, im);
    PassKeepsSymbols(2, want, init, im);
    PassKeepsIdle(2, want, init, im);
    var ps := RunPass(2, want, init, im).value;
    if i == n {
      LineEmits(want, ps, items[n]);
      EmittedDepends(ps.im, im, items[n], ProcessLine(2, want, ps, items[n]).value.im.insns[ps.idx]);
    } else {
      assert init[..i] == items[..i];
      EmitFills(want, init, im, i);
      SlotsGrow(want, init, i);
      if !ps.done { LineKeepsSlots(want, ps, items[n], Slot(want, items, i)); }
    }
  }

  // ---- the whole assembler ---------------------------------------------------------------------------

  lemma ScannedIdle(im: Image)
    ensures Idle(Scanned(im))
  {
    hide TextValue, DefineValue;
  }

  /** For every accepted program, each instruction line's word sits in the slot
      counted for that line and decodes to what the line asked for. */
  lemma EveryLineEmitted(want: Option<string>, items: seq<Item>, i: nat)
    requires AssembleItems(want, items).Some? && i < |items| && Active(want, items, i) && TakesSlot(items[i])
    ensures var im := AssembleItems(want, items).value.im;
            Slot(want, items, i) < MAX_INSNS && Emitted(im, items[i], im.insns[Slot(want, items, i)])
  {
    hide RunPass, Idle, Emitted, Slot, Active, TakesSlot;
    var p0 := RunPass(0, want, items, Blank()).value;
    ScannedIdle(p0.im);
    var p1 := RunPass(1, want, items, Scanned(p0.im)).value;
    PassKeepsIdle(1, want, items, Scanned(p0.im));
    var p2 := RunPass(2, want, items, p1.im).value;
    EmitFills(want, items, p1.im, i);
    PassKeepsSymbols(2, want, items, p1.im);
    EmittedDepends(p1.im, p2.im, items[i], p2.im.insns[Slot(want, items, i)]);
  }

  lemma {:induction false} SlotWordValue(k: nat)
    requires k <= 32
    ensures SlotWord(k) as nat == k && SlotWord(k) <= 32 && Number(Low32(SlotWord(k))) == k
    decreases k
  {
    hide Low32;
    if k > 0 {
      SlotWordValue(k - 1);
      OneMore(SlotWord(k - 1));
      SmallWord(SlotWord(k), k);
    }
    LowOfSmall(SlotWord(k));
  }

  lemma OneMore(v: bv64)
    requires v <= 32
    ensures (v + 1) as nat == v as nat + 1
  {
  }

  lemma SmallWord(v: bv64, k: nat)
    requires v as nat == k && k <= 32
    ensures v <= 32
  {
  }

  lemma LowOfSmall(v: bv64)
    requires v <= 32
    ensures Number(Low32(v)) == v as nat
  {
    assert v & 0xFFFF_FFFF == v;
  }

  /** A label name as an expression denotes its slot and nothing else. */
  lemma NameDenotes(sy: Symbols, id: string, slot: nat, v: nat)
    requires IsName(id) && Names(sy, id, slot) && slot <= 32 && Denotes(sy, id, v)
    ensures v == slot
  {
    hide TextValue, Low32, SlotWord, Number, Names;
    var n: nat :| TextValue(sy, id, n).Some? && Number(TextValue(sy, id, n).value) == v;
    NameValue(sy, id, slot, n);
    SlotWordValue(slot);
  }

  lemma NameValue(sy: Symbols, id: string, slot: nat, n: nat)
    requires IsName(id) && Names(sy, id, slot)
    ensures TextValue(sy, id, n) == Some(Low32(SlotWord(slot)))
  {
    assert Print(Name(id), 0, false) == id;
    ExprRoundTrip.PrintThenParse(Name(id));
    assert ParseText(id) == (Name(id), true);
    hide Low32, SlotWord, FindLabel, FindDefine, ParseText;
    assert Denote(sy, Name(id), n) == Some(SlotWord(slot));
  }

  /** A JMP to a label: wherever the label is declared, before or after, the emitted
      word jumps to the slot of the declaring line, with the delay and side value
      its texts denote. */
  lemma JumpReachesLabel(want: Option<string>, items: seq<Item>, i: nat, j: nat, id: string, cond: nat)
    requires AssembleItems(want, items).Some? && i < |items| && j < |items|
    requires Active(want, items, i) && Active(want, items, j) && Declares(items[j], id) && IsName(id)
    requires items[i].Line? && items[i].insn.Some? && items[i].insn.value.shape == Jump(cond) && items[i].insn.value.args == [id]
    ensures Slot(want, items, i) < MAX_INSNS
    ensures var im, t := AssembleItems(want, items).value.im, items[i].insn.value;
            exists v :: && DenotesAll(im.sy, Texts(t), v)
                        && Carries(im, im.insns[Slot(want, items, i)], Jmp(cond, Slot(want, items, j)), DelayIn(t, v), SideIn(t, v))
  {
    EveryLineEmitted(want, items, i);
    hide Carries, Denotes, Slot, Active, IsName, Declares, Texts, DenotesAll, Built;
    LabelSlot(want, items, j, id);
    var im, t := AssembleItems(want, items).value.im, items[i].insn.value;
    var w := im.insns[Slot(want, items, i)];
    var v :| DenotesAll(im.sy, Texts(t), v) && Built(im, t, v, w);
    JumpArgument(im, t, v, w, id, cond);
    NameDenotes(im.sy, id, Slot(want, items, j), ArgsIn(t, v)[0]);
  }

  /** The one operand of a JMP line. */
  lemma JumpArgument(im: Image, t: Instr, v: seq<nat>, w: Insn, id: string, cond: nat)
    requires t.shape == Jump(cond) && t.args == [id] && DenotesAll(im.sy, Texts(t), v) && Built(im, t, v, w)
    ensures |v| == |Texts(t)| && |ArgsIn(t, v)| == 1 && Denotes(im.sy, id, ArgsIn(t, v)[0])
    ensures Carries(im, w, Jmp(cond, ArgsIn(t, v)[0]), DelayIn(t, v), SideIn(t, v))
  {
    hide Carries, Denotes;
    var n := |Listed(t.delay)| + |Listed(t.side)|;
    assert Texts(t)[n] == id;
    assert Denotes(im.sy, Texts(t)[n], v[n]);
  }

  /** The final symbol table maps each declared label to its line's slot. */
  lemma LabelSlot(want: Option<string>, items: seq<Item>, j: nat, id: string)
    requires AssembleItems(want, items).Some? && j < |items| && Active(want, items, j) && Declares(items[j], id)
    ensures Names(AssembleItems(want, items).value.im.sy, id, Slot(want, items, j)) && Slot(want, items, j) <= 32
  {
    hide RunPass, Names, Slot, Active, Declares;
    var p0 := RunPass(0, want, items, Blank()).value;
    ScanRecords(want, items, Blank(), j, id);
    var p1 := RunPass(1, want, items, Scanned(p0.im)).value;
    PassKeepsSymbols(1, want, items, Scanned(p0.im));
    PassKeepsSymbols(2, want, items, p1.im);
    SlotFits(want, items, j);
  }

  lemma SlotFits(want: Option<string>, items: seq<Item>, j: nat)
    requires RunPass(0, want, items, Blank()).Some? && j <= |items|
    ensures Slot(want, items, j) <= 32
  {
    PrefixRuns(want, items, j);
    PassesAgree(0, want, items[..j], Blank());
  }

  lemma {:induction false} PrefixRuns(want: Option<string>, items: seq<Item>, j: nat)
    requires RunPass(0, want, items, Blank()).Some? && j <= |items|
    ensures RunPass(0, want, items[..j], Blank()).Some?
    decreases |items|
  {
    hide ProcessLine;
    if j == |items| {
      assert items[..j] == items;
    } else {
      PrefixRuns(want, items[..|items| - 1], j);
      assert items[..|items| - 1][..j] == items[..j];
    }
  }

  // ---- the pass as a loop -----------------------------------------------------------------------------

  /** A pass that failed, or finished the selected program, stays where it is. */
  lemma {:induction false} Settled(pass: nat, want: Option<string>, items: seq<Item>, im: Image, i: nat)
    requires pass <= 2 && Start(im).Ready(pass) && i <= |items|
    requires var r := RunPass(pass, want, items[..i], im); r.None? || r.value.done
    ensures RunPass(pass, want, items, im) == RunPass(pass, want, items[..i], im)
    decreases |items|
  {
    hide ProcessLine;
    if i == |items| {
      assert items[..i] == items;
    } else {
      var init := items[..|items| - 1];
      assert init[..i] == items[..i];
      Settled(pass, want, init, im, i);
    }
  }

  /** run_pass as the source runs it, updating its state line by line. */
  method RunPassLoop(pass: nat, want: Option<string>, items: seq<Item>, im: Image) returns (r: Option<PassState>)
    requires pass <= 2 && Start(im).Ready(pass)
    ensures r == RunPass(pass, want, items, im)
  {
    hide ProcessLine;
    var ps, i := Start(im), 0;
    while i < |items| && !ps.done
      invariant 0 <= i <= |items| && RunPass(pass, want, items[..i], im) == Some(ps)
      decreases |items| - i
    {
      assert items[..i + 1][..i] == items[..i];
      var next := ProcessLine(pass, want, ps, items[i]);
      if next.None? {
        Settled(pass, want, items, im, i + 1);
        return None;
      }
      ps, i := next.value, i + 1;
    }
    if ps.done { Settled(pass, want, items, im, i); } else { assert items[..i] == items; }
    r := Some(ps);
  }
}
