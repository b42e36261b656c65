/** From source lines to a running program: what the assembler accepts can be moved,
    and a loaded jump goes to the line that declares its label. */
module Loading {
  import opened Expr
  import opened Options
  import opened Isa
  import opened Defines
  import opened Assembler
  import opened AssemblerPasses
  import opened Machine
  import opened Runs
  import opened Relocate

  /** The assembled words as the loader takes them. */
  function Assembled(o: Output, sidePindirs: bool): Program
    requires o.count <= MAX_INSNS
  {
    Program.Program(true, o.im.insns[..o.count], o.bottom, o.top, o.im.sideBits, o.im.sideOpt, sidePindirs)
  }

  /** Line `j` of the program declares the label `id` at an instruction. */
  ghost predicate LabelsAt(want: Option<string>, items: seq<Item>, id: string, j: nat) {
    && IsName(id) && j < |items| && Active(want, items, j) && Declares(items[j], id)
    && Slot(want, items, j) < PlaceAt(want, items).idx
  }

  /** A line whose instruction may sit anywhere: a JMP to a label, or an instruction
      that writes neither the program counter nor the injection slot. */
  ghost predicate Portable(want: Option<string>, items: seq<Item>, it: Item) {
    && it.Line? && it.insn.Some?
    && match it.insn.value.shape
       case Jump(_) => |it.insn.value.args| == 1 && exists j :: LabelsAt(want, items, it.insn.value.args[0], j)
       case OutTo(dest) => dest != 5 && dest != 7
       case Plain(op) => StaysPut(op)
       case _ => true
  }

  /** A raw word whose value happens to be a portable instruction. */
  ghost predicate RawLocal(want: Option<string>, items: seq<Item>, i: nat) {
    && i < |items| && items[i].Word? && Slot(want, items, i) < MAX_INSNS && AssembleItems(want, items).Some?
    && Local(Decode(AssembleItems(want, items).value.im.insns[Slot(want, items, i)]), PlaceAt(want, items).idx)
  }

  /** Every slot line of the program is portable. */
  ghost predicate AllPortable(want: Option<string>, items: seq<Item>) {
    forall i: nat :: i < |items| && Active(want, items, i) && TakesSlot(items[i]) ==>
      Portable(want, items, items[i]) || RawLocal(want, items, i)
  }

  /** Every slot up to the count was taken by a line. */
  lemma {:induction false} SlotTaken(want: Option<string>, items: seq<Item>, k: nat) returns (i: nat)
    requires k < PlaceAt(want, items).idx
    ensures i < |items| && Active(want, items, i) && TakesSlot(items[i]) && Slot(want, items, i) == k
    decreases |items|
  {
    var n := |items| - 1;
    var init := items[..n];
    assert items[..n] == init;
    if k < PlaceAt(want, init).idx {
      i := SlotTaken(want, init, k);
      assert init[..i] == items[..i];
    } else {
      i := n;
    }
  }

  lemma ShapeStaysPut(shape: Shape, v: seq<nat>)
    requires Operation(shape, v).Some? && !shape.Jump?
    requires shape.OutTo? ==> shape.dest != 5 && shape.dest != 7
    requires shape.Plain? ==> StaysPut(shape.op)
    ensures StaysPut(Operation(shape, v).value)
  {
  }

  lemma JumpLocal(want: Option<string>, items: seq<Item>, i: nat)
    requires AssembleItems(want, items).Some? && i < |items| && Active(want, items, i) && Portable(want, items, items[i])
    requires items[i].insn.value.shape.Jump?
    ensures Slot(want, items, i) < MAX_INSNS
    ensures Local(Decode(AssembleItems(want, items).value.im.insns[Slot(want, items, i)]), PlaceAt(want, items).idx)
  {
    hide AssembleItems, Active, Slot, PlaceAt, Decode, Declares, DenotesAll, Texts, DelayField, DecodeDelaySide;
    var id, cond := items[i].insn.value.args[0], items[i].insn.value.shape.cond;
    var j: nat :| LabelsAt(want, items, id, j);
    JumpReachesLabel(want, items, i, j, id, cond);
  }

  lemma OtherLocal(want: Option<string>, items: seq<Item>, i: nat)
    requires AssembleItems(want, items).Some? && i < |items| && Active(want, items, i) && Portable(want, items, items[i])
    requires !items[i].insn.value.shape.Jump?
    ensures Slot(want, items, i) < MAX_INSNS
    ensures StaysPut(Decode(AssembleItems(want, items).value.im.insns[Slot(want, items, i)]))
  {
    hide AssembleItems, Active, Slot, Decode, DenotesAll, Texts, DelayField, DecodeDelaySide, Operation, StaysPut, ArgsIn;
    EveryLineEmitted(want, items, i);
    var im, t := AssembleItems(want, items).value.im, items[i].insn.value;
    var v :| DenotesAll(im.sy, Texts(t), v) && Built(im, t, v, im.insns[Slot(want, items, i)]);
    ShapeStaysPut(t.shape, ArgsIn(t, v));
  }

  lemma WordLocal(want: Option<string>, items: seq<Item>, k: nat)
    requires AssembleItems(want, items).Some? && AllPortable(want, items) && k < PlaceAt(want, items).idx && k < MAX_INSNS
    ensures Local(Decode(AssembleItems(want, items).value.im.insns[k]), PlaceAt(want, items).idx)
  {
    hide AssembleItems, Active, Slot, PlaceAt, Decode, TakesSlot, Portable, StaysPut;
    var i := SlotTaken(want, items, k);
    if !RawLocal(want, items, i) {
      PortableLine(want, items, items[i]);
      if items[i].insn.value.shape.Jump? { JumpLocal(want, items, i); } else { OtherLocal(want, items, i); }
    }
  }

  lemma PortableLine(want: Option<string>, items: seq<Item>, it: Item)
    requires Portable(want, items, it)
    ensures it.Line? && it.insn.Some?
  {
  }

  /** The program does not run off its end: it wraps there, or ends in a JMP. */
  ghost predicate Ends(want: Option<string>, items: seq<Item>, o: Output) {
    || o.top == o.count - 1
    || exists i: nat :: EndsInJump(want, items, i)
  }

  ghost predicate EndsInJump(want: Option<string>, items: seq<Item>, i: nat) {
    && i < |items| && Active(want, items, i) && Slot(want, items, i) == PlaceAt(want, items).idx - 1
    && items[i].Line? && items[i].insn.Some? && items[i].insn.value.shape == Jump(0)
  }

  /** Every accepted program of portable lines is relocatable. */
  lemma AcceptedIsRelocatable(want: Option<string>, items: seq<Item>)
    requires AssembleItems(want, items).Some? && AllPortable(want, items)
    requires Ends(want, items, AssembleItems(want, items).value)
    ensures var o := AssembleItems(want, items).value;
            o.count <= MAX_INSNS && Relocatable(Assembled(o, false).insns, o.bottom, o.top)
  {
    hide AssembleItems, Active, Slot, PlaceAt, Decode, AllPortable, Local;
    WrapWithinProgram(want, items);
    var o := AssembleItems(want, items).value;
    var prog := o.im.insns[..o.count];
    forall k | 0 <= k < |prog|
      ensures Local(Decode(prog[k]), |prog|)
    {
      WordLocal(want, items, k);
    }
    if o.top != o.count - 1 {
      var i: nat :| EndsInJump(want, items, i);
      LastJump(want, items, i);
    }
  }

  /** Machine `g` runs the program placed at `a` and `b`; the others run none. */
  function Only(n: nat, g: nat, p: Program, a: nat, b: nat): (ps: seq<Option<Placement>>)
    ensures |ps| == n
  {
    seq(n, i => if i == g then Some(Placement(p.insns, p.wrapBottom, p.wrapTop, a, b)) else None)
  }

  /** From text to runs: an accepted portable program loaded at two offsets of one
      world behaves the same through every run. */
  lemma AcceptedRunsAnywhere(want: Option<string>, items: seq<Item>, o: Output, p: Program,
                             w: World, g: nat, a: nat, u: World, b: nat, v: World, acts: seq<Act>)
    requires AssembleItems(want, items) == Some(o) && AllPortable(want, items) && Ends(want, items, o)
    requires o.count <= MAX_INSNS && p == Assembled(o, p.sidePindirs)
    requires InWorld(w, g) && Load(w, g, a, p) == Some(u) && Load(w, g, b, p) == Some(v)
    requires forall i :: 0 <= i < |w.env.sm| ==> !w.env.sm[i].execPending && (i != g ==> !w.env.sm[i].enabled)
    requires u.Valid() && v.Valid() && Runnable(acts, u.env) && Runnable(acts, v.env)
    requires forall i :: 0 <= i < |acts| ==> !(acts[i].SetEnabled? && acts[i].on && acts[i].g != g)
    ensures LockStep(Run(u, acts), Run(v, acts), Only(|w.env.sm|, g, p, a, b))
  {
    hide AssembleItems, AllPortable, Ends, Relocatable, Load, LockStep, Run;
    AcceptedIsRelocatable(want, items);
    LoadsStartInLockStep(w, g, p, a, b);
    var ps := Only(|w.env.sm|, g, p, a, b);
    assert ps == seq(|w.env.sm|, _ => None)[g := Some(Placement(p.insns, p.wrapBottom, p.wrapTop, a, b))];
    InShape(u, v, ps);
    RelocationPreservesRuns(u, v, ps, acts);
  }

  lemma LastJump(want: Option<string>, items: seq<Item>, i: nat)
    requires AssembleItems(want, items).Some? && AllPortable(want, items) && EndsInJump(want, items, i)
    ensures Slot(want, items, i) < MAX_INSNS
    ensures var op := Decode(AssembleItems(want, items).value.im.insns[Slot(want, items, i)]); op.Jmp? && op.cond == 0
  {
    hide AssembleItems, Active, Slot, PlaceAt, Decode, Declares, DenotesAll, Texts, DelayField, DecodeDelaySide;
    var t := items[i].insn.value;
    assert Portable(want, items, items[i]);
    var j: nat :| LabelsAt(want, items, t.args[0], j);
    JumpReachesLabel(want, items, i, j, t.args[0], 0);
  }

  /** End to end: after loading at `a`, the JMP on line `i` goes to the slot its
      label's line was loaded into. */
  lemma LoadedJump(want: Option<string>, items: seq<Item>, w: World, g: nat, a: nat, pindirs: bool, i: nat, j: nat, id: string, cond: nat)
    requires AssembleItems(want, items).Some? && i < |items| && j < |items|
    requires Active(want, items, i) && Active(want, items, j) && Declares(items[j], id) && IsName(id)
    requires items[i].Line? && items[i].insn.Some? && items[i].insn.value.shape == Jump(cond) && items[i].insn.value.args == [id]
    requires InWorld(w, g) && AssembleItems(want, items).value.count <= MAX_INSNS
    requires Load(w, g, a, Assembled(AssembleItems(want, items).value, pindirs)).Some? && a + Slot(want, items, j) < 32
    ensures a + Slot(want, items, i) < 32
    ensures var r := Load(w, g, a, Assembled(AssembleItems(want, items).value, pindirs)).value;
            Decode(r.code[g / 4].insn[a + Slot(want, items, i)]) == Jmp(cond, a + Slot(want, items, j))
  {
    hide AssembleItems, Active, Slot, PlaceAt, Decode, Declares, DenotesAll, Texts, DelayField, DecodeDelaySide, IsName, RelocateWord;
    var o := AssembleItems(want, items).value;
    JumpReachesLabel(want, items, i, j, id, cond);
    WrapWithinProgram(want, items);
    SlotBelow(want, items, i);
    var s := Slot(want, items, i);
    assert Decode(o.im.insns[s]) == Jmp(cond, Slot(want, items, j));
    LoadedIn(w, g, a, Assembled(o, pindirs), s);
    DecodeRelocated(o.im.insns[s], a);
  }

  lemma SlotBelow(want: Option<string>, items: seq<Item>, i: nat)
    requires i < |items| && Active(want, items, i) && TakesSlot(items[i])
    ensures Slot(want, items, i) < PlaceAt(want, items).idx
  {
    SlotsGrow(want, items, i);
  }

  lemma LoadedIn(w: World, g: nat, a: nat, p: Program, s: nat)
    requires InWorld(w, g) && Load(w, g, a, p).Some? && s < |p.insns|
    ensures a + s < 32 && Load(w, g, a, p).value.code[g / 4].insn[a + s] == RelocateWord(p.insns[s], a)
  {
    hide RelocateWord;
  }
}
