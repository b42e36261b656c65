/** End to end: memory to TX FIFO by DMA, through the pull / mov isr, osr / push
    loop, RX FIFO to memory by DMA. Nothing is lost, duplicated or reordered. */
module Echo {
  import opened Bits
  import opened Crc
  import opened Isa
  import opened Options
  import opened Machine
  import opened Runs
  import opened Dma
  import opened DmaChain
  import opened DmaCopy

  // ---- the state machine ------------------------------------------------------------

  function EchoOp(slot: nat): (op: Op)
    ensures Encodable(op)
  {
    if slot == 0 then Pull(false, true) else if slot == 1 then Mov(6, 0, 7) else Push(false, true)
  }

  /** The loop sits at offset `o`, with any delay and side-set fields, and state
      machine `g` is somewhere inside it. */
  ghost predicate Echoing(w: World, g: nat, o: nat) {
    && InWorld(w, g) && o + 3 <= 32
    && w.flow[g].bottom == o && w.flow[g].top == o + 2 && o <= w.flow[g].pc <= o + 2
    && (forall slot :: 0 <= slot < 3 ==> Decode(w.code[g / 4].insn[o + slot]) == EchoOp(slot))
    && !w.env.sm[g].execPending && !w.env.sm[g].cfg.autopull
  }

  /** The word between the FIFOs: in the OSR after the pull, in the ISR after the mov. */
  function InFlight(sm: Sm, slot: int): seq<Word> {
    if slot == 1 then [sm.osr] else if slot == 2 then [sm.isr] else []
  }

  /** Everything between the two DMA channels, oldest first. */
  function Pipe(sm: Sm, slot: int): seq<Word> {
    sm.rx.Contents() + InFlight(sm, slot) + sm.tx.Contents()
  }

  /** The data path's part of a record. */
  predicate SamePath(a: Sm, b: Sm) {
    SameOut(a, b) && SameIn(a, b)
  }

  lemma PullMoves(sm: Sm)
    requires !sm.cfg.autopull
    ensures var r := PullSm(sm, false, true); Pipe(r.0, if r.1 then 0 else 1) == Pipe(sm, 0)
  {
  }

  lemma PushMoves(sm: Sm)
    ensures var r := PushSm(sm, false, true); Pipe(r.0, if r.1 then 2 else 0) == Pipe(sm, 2)
  {
  }

  /** Each of the three instructions moves the word one place or stalls. */
  lemma OpMoves(e: Env, g: nat, slot: nat)
    requires Has(e, g) && slot < 3 && !e.sm[g].cfg.autopull
    ensures var r := ExecOp(e, g, EchoOp(slot));
            && r.jump.None? && SameSlot(e.sm[g], r.env.sm[g])
            && Pipe(r.env.sm[g], if r.stalled then slot else if slot == 2 then 0 else slot + 1) == Pipe(e.sm[g], slot)
  {
    hide Pipe, PullSm, PushSm, ExecMov, ExecJmp, ExecWait, ExecIn, ExecOut, ExecRxFifo, ExecIrq, ExecSet;
    if slot == 0 {
      PullMoves(e.sm[g]);
    } else if slot == 2 {
      PushMoves(e.sm[g]);
    } else {
      MovMoves(e, g);
    }
  }

  lemma MovMoves(e: Env, g: nat)
    requires Has(e, g)
    ensures Pipe(ExecOp(e, g, EchoOp(1)).env.sm[g], 2) == Pipe(e.sm[g], 1)
  {
    MovDispatch(e, g);
    hide Pipe, ExecMov, ExecOp, EchoOp;
    MovRecord(e, g);
    MovedPipe(e.sm[g]);
  }

  lemma MovDispatch(e: Env, g: nat)
    requires Has(e, g)
    ensures ExecOp(e, g, EchoOp(1)) == ExecMov(e, g, 6, 0, 7)
  {
    hide ExecBy, Repads, Has, Encodable, ExecMov, ExecJmp, ExecWait, ExecIn, ExecOut, ExecPush, ExecPull, ExecRxFifo, ExecIrq, ExecSet;
  }

  lemma MovRecord(e: Env, g: nat)
    requires Has(e, g)
    ensures ExecMov(e, g, 6, 0, 7).env.sm[g] == e.sm[g].(isr := e.sm[g].osr, isrCount := 0)
  {
    hide ReadInPins, ReadStatus, DrivePins, DrivePindirs, Low16, PutKept;
  }

  lemma MovedPipe(sm: Sm)
    ensures Pipe(sm.(isr := sm.osr, isrCount := 0), 2) == Pipe(sm, 1)
  {
  }

  lemma SamePathPipe(a: Sm, b: Sm, slot: int)
    requires SamePath(a, b)
    ensures Pipe(b, slot) == Pipe(a, slot)
  {
  }

  /** What a presentation leaves of the record and the flow. */
  lemma PresentedRecord(w: World, g: nat, insn: Insn)
    requires InWorld(w, g)
    ensures var r, d := ExecOp(w.env, g, Decode(insn)), DelaySideOf(w.env.sm[g].cfg, insn);
            var v := PresentInsn(w, g, insn, false);
            && v.env.sm[g] == Retire(ApplySide(r.env, g, d).sm[g], r.stalled, false, d.delay)
            && ExecOne(w.env, g, insn).stalled == r.stalled && ExecOne(w.env, g, insn).jump == r.jump
            && v.flow[g] == RetireFlow(w.flow[g], ExecOne(w.env, g, insn), false)
  {
    hide ExecOp, ApplySide, Decode, DelaySideOf, CountFetch, RetireFlow, Retire;
  }

  lemma RetiredPath(sm: Sm, stalled: bool, delay: nat)
    ensures var r := Retire(sm, stalled, false, delay); SamePath(sm, r) && SameSlot(sm, r) && r.cfg == sm.cfg
  {
  }

  lemma SidePath(e: Env, g: nat, ds: DelaySide)
    requires Has(e, g)
    ensures SamePath(e.sm[g], ApplySide(e, g, ds).sm[g])
  {
    hide ApplySide;
  }

  /** The echo loop's counter wraps after its third slot. */
  lemma NextInLoop(o: nat, slot: nat, r: Step)
    requires slot < 3 && o + 3 <= 32 && r.jump.None?
    ensures RetireFlow(Flow(o + slot, o, o + 2), r, false)
         == Flow(if r.stalled then o + slot else if slot == 2 then o else o + slot + 1, o, o + 2)
  {
    if o + slot + 1 < 32 { SmallMod(o + slot + 1, 32); }
  }

  /** Presenting the instruction at the program counter. */
  lemma PresentMoves(w: World, g: nat, o: nat)
    requires Echoing(w, g, o)
    ensures var r := PresentInsn(w, g, Presented(w, g), false);
            && !r.env.sm[g].execPending && r.env.sm[g].cfg == w.env.sm[g].cfg
            && r.flow[g].bottom == o && r.flow[g].top == o + 2 && o <= r.flow[g].pc <= o + 2
            && Pipe(r.env.sm[g], r.flow[g].pc - o) == Pipe(w.env.sm[g], w.flow[g].pc - o)
  {
    var slot := w.flow[g].pc - o;
    EchoFetch(w, g, o);
    hide Echoing, Decode, PresentInsn, Pipe;
    OpMoves(w.env, g, slot);
    EchoPresent(w, g, o, slot, Presented(w, g));
  }

  lemma EchoFetch(w: World, g: nat, o: nat)
    requires Echoing(w, g, o)
    ensures Decode(Presented(w, g)) == EchoOp(w.flow[g].pc - o)
  {
    hide Decode;
    SmallMod(w.flow[g].pc, 32);
    assert Decode(w.code[g / 4].insn[o + (w.flow[g].pc - o)]) == EchoOp(w.flow[g].pc - o);
  }

  /** Side-set and retirement leave the pipe where the operation put it. */
  lemma EchoPresent(w: World, g: nat, o: nat, slot: nat, insn: Insn)
    requires InWorld(w, g) && slot < 3 && o + 3 <= 32 && !w.env.sm[g].execPending
    requires w.flow[g] == Flow(o + slot, o, o + 2) && Decode(insn) == EchoOp(slot)
    requires var r := ExecOp(w.env, g, EchoOp(slot));
             && r.jump.None? && SameSlot(w.env.sm[g], r.env.sm[g])
             && Pipe(r.env.sm[g], if r.stalled then slot else if slot == 2 then 0 else slot + 1) == Pipe(w.env.sm[g], slot)
    ensures var v := PresentInsn(w, g, insn, false);
            && !v.env.sm[g].execPending && v.env.sm[g].cfg == w.env.sm[g].cfg
            && v.flow[g].bottom == o && v.flow[g].top == o + 2 && o <= v.flow[g].pc <= o + 2
            && Pipe(v.env.sm[g], v.flow[g].pc - o) == Pipe(w.env.sm[g], slot)
  {
    hide ExecOp, ApplySide, Decode, DelaySideOf, CountFetch, Pipe, EchoOp, PresentInsn, RetireFlow, Retire, SamePath;
    PresentedRecord(w, g, insn);
    NextInLoop(o, slot, ExecOne(w.env, g, insn));
    var r := ExecOp(w.env, g, EchoOp(slot));
    var ds := DelaySideOf(w.env.sm[g].cfg, insn);
    var e := ApplySide(r.env, g, ds);
    var pc := PresentInsn(w, g, insn, false).flow[g].pc;
    SidePath(r.env, g, ds);
    RetiredPath(e.sm[g], r.stalled, ds.delay);
    SamePathPipe(r.env.sm[g], e.sm[g], pc - o);
    SamePathPipe(e.sm[g], Retire(e.sm[g], r.stalled, false, ds.delay), pc - o);
  }

  /** Without autopull a cycle is a delay count or a presentation. */
  lemma CycleUnfolds(w: World, g: nat)
    requires InWorld(w, g) && !w.env.sm[g].cfg.autopull && !w.env.sm[g].execPending
    ensures var sm := w.env.sm[g];
            SmCycle(w, g) == if sm.delay > 0 then WithSm(w, g, sm.(delay := sm.delay - 1))
                             else PresentInsn(w, g, Presented(w, g), false)
  {
    hide PresentInsn, Refill;
    var sm := w.env.sm[g];
    assert Autopull(sm) == sm;
    assert w.env.sm[g := sm] == w.env.sm;
    assert WithSm(w, g, sm) == w;
  }

  lemma DelayMoves(w: World, g: nat, o: nat)
    requires Echoing(w, g, o) && w.env.sm[g].delay > 0
    ensures var r := WithSm(w, g, w.env.sm[g].(delay := w.env.sm[g].delay - 1));
            Echoing(r, g, o) && Pipe(r.env.sm[g], r.flow[g].pc - o) == Pipe(w.env.sm[g], w.flow[g].pc - o)
  {
    hide Decode, Pipe;
    SamePathPipe(w.env.sm[g], w.env.sm[g].(delay := w.env.sm[g].delay - 1), w.flow[g].pc - o);
  }

  /** A cycle keeps the pipe's contents and order. */
  lemma CycleMoves(w: World, g: nat, o: nat)
    requires Echoing(w, g, o)
    ensures var r := SmCycle(w, g);
            Echoing(r, g, o) && Pipe(r.env.sm[g], r.flow[g].pc - o) == Pipe(w.env.sm[g], w.flow[g].pc - o)
  {
    hide PresentInsn, Presented, Decode, Pipe, SmCycle;
    CycleUnfolds(w, g);
    CycleKeepsCode(w, g);
    if w.env.sm[g].delay > 0 {
      DelayMoves(w, g, o);
    } else {
      PresentMoves(w, g, o);
      EchoCodeKept(w, SmCycle(w, g), g, o);
    }
  }

  lemma EchoCodeKept(w: World, v: World, g: nat, o: nat)
    requires Echoing(w, g, o) && InWorld(v, g) && v.code[g / 4].insn == w.code[g / 4].insn
    ensures forall slot :: 0 <= slot < 3 ==> Decode(v.code[g / 4].insn[o + slot]) == EchoOp(slot)
  {
    hide Decode;
  }

  // ---- acts ---------------------------------------------------------------------------

  /** The act is not a host word into or out of `g`. */
  predicate HandsOff(act: Act, g: nat) {
    act != Get(g) && !(act.Put? && act.g == g)
  }

  ghost predicate SameEcho(w: World, v: World, g: nat) {
    && InWorld(w, g) && InWorld(v, g) && v.flow[g] == w.flow[g] && v.code[g / 4].insn == w.code[g / 4].insn
    && v.env.sm[g].cfg == w.env.sm[g].cfg && SameSlot(w.env.sm[g], v.env.sm[g]) && SamePath(w.env.sm[g], v.env.sm[g])
  }

  lemma SameEchoes(w: World, v: World, g: nat, o: nat)
    requires SameEcho(w, v, g) && Echoing(w, g, o)
    ensures Echoing(v, g, o) && Pipe(v.env.sm[g], v.flow[g].pc - o) == Pipe(w.env.sm[g], w.flow[g].pc - o)
  {
    hide Decode;
    SamePathPipe(w.env.sm[g], v.env.sm[g], w.flow[g].pc - o);
  }

  lemma ClockMoves(w: World, g: nat, o: nat)
    requires Echoing(w, g, o)
    ensures var r := Clock(w, g);
            Echoing(r, g, o) && Pipe(r.env.sm[g], r.flow[g].pc - o) == Pipe(w.env.sm[g], w.flow[g].pc - o)
  {
    hide SmCycle, Pipe;
    var w1 := WithSm(w, g, Ticked(w.env.sm[g]));
    assert SameEcho(w, w1, g) by { hide Echoing; assert InWorld(w, g) by { InWorldEchoing(w, g, o); } }
    SameEchoes(w, w1, g, o);
    hide Echoing;
    InWorldEchoing(w, g, o);
    if Due(w.env.sm[g]) && w.env.sm[g].enabled {
      CycleMoves(w1, g, o);
      var w2 := SmCycle(w1, g);
      var w3 := WithSm(w2, g, Sticky(w2.env.sm[g]));
      assert SameEcho(w2, w3, g);
      SameEchoes(w2, w3, g, o);
    }
  }

  lemma InWorldEchoing(w: World, g: nat, o: nat)
    requires Echoing(w, g, o)
    ensures InWorld(w, g)
  {
  }

  lemma OtherActKeepsPath(w: World, act: Act, g: nat)
    requires InWorld(w, g) && Applies(act, w.env) && HandsOff(act, g) && act != ClockSm(g)
    ensures SameEcho(w, Do(w, act), g)
  {
    hide Clock, DoEnv;
    DoKeepsCode(w, act, g / 4);
    if act.ClockSm? { OtherFlow(w, act.g, g); } else { EnvActFrame(w.env, act, g); }
  }

  /** Every act other than a host put or get on `g` keeps the pipe. */
  lemma ActMoves(w: World, act: Act, g: nat, o: nat)
    requires Echoing(w, g, o) && Applies(act, w.env) && HandsOff(act, g)
    ensures var r := Do(w, act);
            Echoing(r, g, o) && Pipe(r.env.sm[g], r.flow[g].pc - o) == Pipe(w.env.sm[g], w.flow[g].pc - o)
  {
    hide Clock, DoEnv, Echoing, Pipe, SameEcho;
    InWorldEchoing(w, g, o);
    if act == ClockSm(g) {
      ClockMoves(w, g, o);
    } else {
      OtherActKeepsPath(w, act, g);
      SameEchoes(w, Do(w, act), g, o);
    }
  }

  // ---- DMA and FIFOs --------------------------------------------------------------------

  lemma PutKeepsDebug(sm: Sm, v: Word)
    requires !sm.tx.Full()
    ensures PutWord(sm, v).fdebug == sm.fdebug && PutWord(sm, v).tx.Contents() == sm.tx.Contents() + [v]
    ensures PutWord(sm, v) == sm.(tx := PutWord(sm, v).tx)
  {
  }

  lemma GetKeepsDebug(sm: Sm)
    requires !sm.rx.Empty()
    ensures GetWord(sm).fdebug == sm.fdebug && sm.rx.Contents() == [sm.rx.Pop().1] + GetWord(sm).rx.Contents()
    ensures GetWord(sm) == sm.(rx := GetWord(sm).rx)
  {
  }

  /** What fetching an element does to the blocks: at most pop one RX FIFO. */
  lemma ReadEnv(c: Chip, a: Addr, n: nat, h: nat)
    requires c.Valid() && CanRead(c, a) && n <= 4 && h < |c.env.sm|
    ensures var r := ReadElement(c, a, n).1.sm[h]; r == c.env.sm[h].(rx := r.rx)
  {
    if a.Rxf? { GetKeepsDebug(c.env.sm[FifoOwner(c, a.pio, a.sm).value]); }
    hide GetWord;
  }

  /** Every DMA put and get succeeds: no transfer of any channel, however
      programmed, sets TXOVER, RXUNDER or another debug flag of any machine. */
  lemma TransferKeepsDebug(c: Chip, i: nat, h: nat)
    requires c.Valid() && i < CHANNELS && Ready(c, i) && h < |c.env.sm|
    ensures Transfer(c, i).env.sm[h].fdebug == c.env.sm[h].fdebug
  {
    ReadyRoutes(c, i);
    var ch := c.dma.ch[i];
    var n := Bytes(ch.ctrl.size);
    ReadEnv(c, ch.read, n, h);
    hide Ready, ReadElement, PokeBytes, SniffStep, SpendCredit, AdvanceBoth, Complete, PutWord, Moved;
    if ch.write.Txf? {
      var g := FifoOwner(c, ch.write.pio, ch.write.sm).value;
      ReadEnv(c, ch.read, n, g);
      var e := ReadElement(c, ch.read, n).1;
      PutKeepsDebug(e.sm[g], Moved(ch.ctrl, ReadElement(c, ch.read, n).0));
    }
  }

  lemma TickKeepsDebug(c: Chip, h: nat)
    requires c.Valid() && h < |c.env.sm|
    ensures Tick(c).env.sm[h].fdebug == c.env.sm[h].fdebug
  {
    TickFrame(c);
    hide Transfer, Choice, Ready, Tick, TickTimers;
    var c1 := TickTimers(c);
    if Choice(c1).Some? { TransferKeepsDebug(c1, Choice(c1).value, h); }
  }

  // ---- words in memory ---------------------------------------------------------------------

  function WordAt(m: Memory, a: nat): Word {
    Element(PeekBytes(m, a, 4))
  }

  /** The `n` words from an address up. */
  function Words(m: Memory, a: nat, n: nat): (ws: seq<Word>)
    ensures |ws| == n
  {
    if n == 0 then [] else Words(m, a, n - 1) + [WordAt(m, a + 4 * (n - 1))]
  }

  /** The two memories agree on the `n` bytes from `a`. */
  ghost predicate Agree(m: Memory, m': Memory, a: nat, n: nat) {
    forall x: nat :: a <= x < a + n ==> Peek(m', x) == Peek(m, x)
  }

  lemma {:induction false} PeekAgree(m: Memory, m': Memory, a: nat, n: nat)
    requires Agree(m, m', a, n)
    ensures PeekBytes(m', a, n) == PeekBytes(m, a, n)
    decreases n
  {
    if n > 0 { PeekAgree(m, m', a, n - 1); }
  }

  lemma {:induction false} WordsAgree(m: Memory, m': Memory, a: nat, n: nat)
    requires Agree(m, m', a, 4 * n)
    ensures Words(m', a, n) == Words(m, a, n)
    decreases n
  {
    hide Peek, Element;
    if n > 0 {
      AgreeParts(m, m', a, n);
      WordsAgree(m, m', a, n - 1);
      hide Agree, PeekBytes;
      PeekAgree(m, m', a + 4 * (n - 1), 4);
    }
  }

  lemma AgreeParts(m: Memory, m': Memory, a: nat, n: nat)
    requires n > 0 && Agree(m, m', a, 4 * n)
    ensures Agree(m, m', a, 4 * (n - 1)) && Agree(m, m', a + 4 * (n - 1), 4)
  {
    hide Peek;
  }

  lemma JoinSplit(v: Word)
    ensures Element(Split(v, 4)) == v
  {
    var b0, b1, b2, b3 := ByteAt(v, 0), ByteAt(v, 1), ByteAt(v, 2), ByteAt(v, 3);
    assert v == ((v[0..8] + v[8..16]) + v[16..24]) + v[24..32];
    hide ByteAt;
    assert Split(v, 4) == [b0, b1, b2, b3] by { SplitFour(v); }
    JoinFour(b0, b1, b2, b3);
    assert Zeros(0) == [];
  }

  lemma SplitFour(v: Word)
    ensures Split(v, 4) == [ByteAt(v, 0), ByteAt(v, 1), ByteAt(v, 2), ByteAt(v, 3)]
  {
    hide ByteAt;
    assert Split(v, 1) == [ByteAt(v, 0)];
    assert Split(v, 2) == [ByteAt(v, 0), ByteAt(v, 1)];
    assert Split(v, 3) == [ByteAt(v, 0), ByteAt(v, 1), ByteAt(v, 2)];
  }

  lemma JoinFour(b0: Byte, b1: Byte, b2: Byte, b3: Byte)
    ensures Crc.Join([b0, b1, b2, b3]) == ((b0 + b1) + b2) + b3
  {
    assert [b0, b1, b2, b3][..3] == [b0, b1, b2];
    assert [b0, b1, b2][..2] == [b0, b1];
    assert [b0, b1][..1] == [b0];
    assert [b0][..0] == [];
    assert Crc.Join([b0]) == b0;
    assert Crc.Join([b0, b1]) == b0 + b1;
    assert Crc.Join([b0, b1, b2]) == (b0 + b1) + b2;
  }

  /** A stored word reads back, and nothing else changed. */
  lemma StoreWord(m: Memory, a: nat, v: Word)
    ensures var m' := PokeBytes(m, a, Split(v, 4));
            WordAt(m', a) == v && forall x: nat :: x < a || x >= a + 4 ==> Peek(m', x) == Peek(m, x)
  {
    var m' := PokeBytes(m, a, Split(v, 4));
    forall x: nat
      ensures Peek(m', x) == if a <= x < a + 4 then Split(v, 4)[x - a] else Peek(m, x)
    {
      PokePeek(m, a, Split(v, 4), x);
    }
    hide Peek, PokeBytes, Split;
    forall j: nat | j < 4
      ensures PeekBytes(m', a, 4)[j] == Split(v, 4)[j]
    {
      PeekBytesAt(m', a, 4, j);
    }
    hide PeekBytes;
    assert PeekBytes(m', a, 4) == Split(v, 4);
    JoinSplit(v);
  }

  // ---- the whole line ------------------------------------------------------------------------

  /** Blocks, memory and controller; a chip step is an act of a tick or a DMA tick. */
  datatype Sys = Sys(w: World, mem: Memory, dma: Dma) {
    function AsChip(): Chip { Chip(w.env, mem, dma) }

    ghost predicate Valid() { w.Valid() && AsChip().Valid() }
  }

  datatype SysOp = PioAct(act: Act) | DmaTick

  ghost predicate SysApplies(op: SysOp, e: Env, g: nat) {
    op.PioAct? ==> Applies(op.act, e) && HandsOff(op.act, g)
  }

  function SysDo(s: Sys, op: SysOp, g: nat): (r: Sys)
    requires s.Valid() && SysApplies(op, s.w.env, g)
    ensures r.Valid() && SameShape(s.w.env, r.w.env)
  {
    match op
    case PioAct(act) => Sys(Do(s.w, act), s.mem, s.dma)
    case DmaTick => var c := Tick(s.AsChip()); Sys(World(c.env, s.w.flow, s.w.code), c.mem, c.dma)
  }

  /** Channel `a` feeds `total` words from `src` into the TX FIFO of state machine
      `g`; channel `b` drains its RX FIFO to `dst`; the loop sits at `o`. */
  datatype Line = Line(g: nat, o: nat, a: Chan, b: Chan, pio: nat, sm: nat, src: nat, dst: nat, total: nat) {
    predicate Disjoint() {
      a != b && (src + 4 * total <= dst || dst + 4 * total <= src)
    }
  }

  /** 32-bit elements, no swap, no ring, no chain. */
  predicate PlainWords(ctrl: Ctrl, i: nat) {
    ctrl.size == 2 && !ctrl.bswap && ctrl.ringSize == 0 && (ctrl.chainTo == i || ctrl.chainTo >= CHANNELS)
  }

  predicate Feeds(ch: Channel, l: Line, t: nat) {
    && PlainWords(ch.ctrl, l.a) && ch.ctrl.incrRead
    && ch.read == Mem(Some(l.src + 4 * t)) && ch.write == Txf(l.pio, l.sm)
    && t <= l.total && (ch.busy ==> ch.count == l.total - t > 0)
  }

  predicate Drains(ch: Channel, l: Line, u: nat) {
    && PlainWords(ch.ctrl, l.b) && ch.ctrl.incrWrite
    && ch.read == Rxf(l.pio, l.sm) && ch.write == Mem(Some(l.dst + 4 * u))
  }

  /** The channel table: `t` words fed, `u` drained, nobody else busy. */
  ghost predicate Table(d: Dma, l: Line, t: nat, u: nat) {
    && Feeds(d.ch[l.a], l, t) && Drains(d.ch[l.b], l, u)
    && (forall j :: 0 <= j < CHANNELS && j != l.a && j != l.b ==> !d.ch[j].busy)
    && l.pio < |d.pio| && d.pio[l.pio].Some? && 4 * d.pio[l.pio].value + l.sm % 4 == l.g
  }

  /** Conservation and order: words taken = words delivered ++ the pipe; memory
      outside the delivered words is as it was. */
  ghost predicate Conserved(m0: Memory, m: Memory, l: Line, t: nat, u: nat, pipe: seq<Word>) {
    && Words(m0, l.src, t) == Words(m, l.dst, u) + pipe
    && (forall x: nat :: x < l.dst || x >= l.dst + 4 * u ==> Peek(m, x) == Peek(m0, x))
  }

  function PipeOf(s: Sys, l: Line): seq<Word>
    requires s.Valid() && l.g < |s.w.env.sm|
  {
    Pipe(s.w.env.sm[l.g], s.w.flow[l.g].pc - l.o)
  }

  ghost predicate Running(s: Sys, l: Line, m0: Memory, t: nat, u: nat) {
    && s.Valid() && l.Disjoint() && Echoing(s.w, l.g, l.o) && Table(s.dma, l, t, u)
    && Conserved(m0, s.mem, l, t, u, PipeOf(s, l))
  }

  lemma WordsNext(m: Memory, a: nat, n: nat)
    ensures Words(m, a, n + 1) == Words(m, a, n) + [WordAt(m, a + 4 * n)]
  {
  }

  lemma FeedConserves(m0: Memory, m: Memory, l: Line, t: nat, u: nat, pipe: seq<Word>)
    requires l.Disjoint() && t < l.total && Conserved(m0, m, l, t, u, pipe)
    ensures Conserved(m0, m, l, t + 1, u, pipe + [WordAt(m, l.src + 4 * t)])
  {
    hide Peek, PeekBytes, Words, Element;
    assert u <= t;
    PeekAgree(m0, m, l.src + 4 * t, 4);
    WordsNext(m0, l.src, t);
  }

  /** Storing the next word extends the delivered words. */
  lemma StoreNext(m: Memory, a: nat, u: nat, v: Word)
    ensures Words(PokeBytes(m, a + 4 * u, Split(v, 4)), a, u + 1) == Words(m, a, u) + [v]
  {
    var m' := PokeBytes(m, a + 4 * u, Split(v, 4));
    StoreWord(m, a + 4 * u, v);
    hide PokeBytes, Split, Peek, WordAt, Words;
    assert Agree(m, m', a, 4 * u);
    WordsAgree(m, m', a, u);
    WordsNext(m', a, u);
  }

  lemma DrainConserves(m0: Memory, m: Memory, l: Line, t: nat, u: nat, v: Word, rest: seq<Word>)
    requires Conserved(m0, m, l, t, u, [v] + rest)
    ensures Conserved(m0, PokeBytes(m, l.dst + 4 * u, Split(v, 4)), l, t, u + 1, rest)
  {
    hide PokeBytes, Split, Peek, WordAt, Words;
    StoreNext(m, l.dst, u, v);
    StoreWord(m, l.dst + 4 * u, v);
    assert (Words(m, l.dst, u) + [v]) + rest == Words(m, l.dst, u) + ([v] + rest);
  }

  lemma OwnerIs(c: Chip, l: Line, t: nat, u: nat)
    requires c.Valid() && Table(c.dma, l, t, u)
    ensures FifoOwner(c, l.pio, l.sm) == Some(l.g)
  {
  }

  lemma FeedEnv(c: Chip, l: Line, t: nat, u: nat)
    requires c.Valid() && Table(c.dma, l, t, u) && Ready(c, l.a) && l.g < |c.env.sm|
    ensures Transfer(c, l.a).mem == c.mem
    ensures Transfer(c, l.a).env.sm[l.g] == PutWord(c.env.sm[l.g], WordAt(c.mem, l.src + 4 * t))
  {
    OwnerIs(c, l, t, u);
    ReadyRoutes(c, l.a);
    var ch := c.dma.ch[l.a];
    assert ch.read == Mem(Some(l.src + 4 * t)) && ch.write == Txf(l.pio, l.sm) && ch.ctrl.size == 2 && !ch.ctrl.bswap;
    hide Ready, CanRead, CanWrite, PeekBytes, Element, FifoOwner, PokeBytes, SniffStep, SpendCredit, AdvanceBoth, Complete, PutWord, Table;
  }

  /** The feeder's transfer: one more source word at the back of the pipe. */
  lemma FeedTransfer(c: Chip, l: Line, t: nat, u: nat, slot: int)
    requires c.Valid() && Table(c.dma, l, t, u) && Ready(c, l.a) && l.g < |c.env.sm|
    ensures var r := Transfer(c, l.a);
            && r.mem == c.mem
            && Pipe(r.env.sm[l.g], slot) == Pipe(c.env.sm[l.g], slot) + [WordAt(c.mem, l.src + 4 * t)]
            && r.env.sm[l.g] == c.env.sm[l.g].(tx := r.env.sm[l.g].tx)
  {
    OwnerIs(c, l, t, u);
    ReadyRoutes(c, l.a);
    var sm, v := c.env.sm[l.g], WordAt(c.mem, l.src + 4 * t);
    assert !sm.tx.Full();
    PutKeepsDebug(sm, v);
    FeedEnv(c, l, t, u);
    hide Transfer, PutWord, WordAt;
    hide InFlight;
    assert Pipe(sm, slot) + [v] == sm.rx.Contents() + InFlight(sm, slot) + (sm.tx.Contents() + [v]);
  }

  /** The drainer's transfer: the front of the pipe goes to memory. */
  lemma DrainTransfer(c: Chip, l: Line, t: nat, u: nat, slot: int)
    requires c.Valid() && Table(c.dma, l, t, u) && Ready(c, l.b) && l.g < |c.env.sm|
    ensures var r := Transfer(c, l.b);
            var v := c.env.sm[l.g].rx.Pop().1;
            && r.mem == PokeBytes(c.mem, l.dst + 4 * u, Split(v, 4))
            && Pipe(c.env.sm[l.g], slot) == [v] + Pipe(r.env.sm[l.g], slot)
            && r.env.sm[l.g] == c.env.sm[l.g].(rx := r.env.sm[l.g].rx)
  {
    OwnerIs(c, l, t, u);
    ReadyRoutes(c, l.b);
    var sm := c.env.sm[l.g];
    var v := sm.rx.Pop().1;
    assert !sm.rx.Empty();
    GetKeepsDebug(sm);
    hide Ready, Split, FifoOwner, PokeBytes, SniffStep, SpendCredit, AdvanceBoth, Complete, GetWord;
    assert Transfer(c, l.b).env == PutSm(c.env, l.g, GetWord(sm));
    var r := GetWord(sm);
    assert ([v] + r.rx.Contents()) + InFlight(sm, slot) + sm.tx.Contents() == [v] + Pipe(r, slot);
  }

  /** A transfer by one of the two leaves channels that are idle idle. */
  lemma OthersIdle(c: Chip, i: nat, j: nat)
    requires c.Valid() && i < CHANNELS && j < CHANNELS && i != j && Ready(c, i)
    requires PlainWords(c.dma.ch[i].ctrl, i)
    ensures var b, r := c.dma.ch[j], Transfer(c, i).dma.ch[j];
            r.ctrl == b.ctrl && r.read == b.read && r.write == b.write && r.busy == b.busy && r.count == b.count
  {
    TransferCursors(c, i, j);
    TransferChannel(c, i, j);
    hide Transfer, Ready, AdvanceBoth;
  }

  lemma FeedsNext(c: Chip, l: Line, t: nat)
    requires c.Valid() && Ready(c, l.a) && Feeds(c.dma.ch[l.a], l, t)
    ensures t < l.total && Feeds(Transfer(c, l.a).dma.ch[l.a], l, t + 1)
  {
    assert c.dma.ch[l.a].busy by { hide TreqReady, CanRead, CanWrite; }
    hide Transfer, Ready, AdvanceBoth, Feeds, CountDown;
    AdvanceFeeds(c.dma.ch[l.a], l, t);
    TransferCursors(c, l.a, l.a);
    TransferChannel(c, l.a, l.a);
    FeedsAfter(c.dma.ch[l.a], Transfer(c, l.a).dma.ch[l.a], l, t);
  }

  lemma FeedsAfter(b: Channel, r: Channel, l: Line, t: nat)
    requires Feeds(b, l, t) && b.busy && SameProgram(b, r) && r.read == Mem(Some(l.src + 4 * (t + 1))) && r.write == b.write
    requires r.count == CountDown(b.count) && r.busy == (CountDown(b.count) != 0)
    ensures t < l.total && Feeds(r, l, t + 1)
  {
  }

  lemma AdvanceFeeds(ch: Channel, l: Line, t: nat)
    requires Feeds(ch, l, t)
    ensures AdvanceBoth(ch).read == Mem(Some(l.src + 4 * (t + 1))) && AdvanceBoth(ch).write == ch.write
  {
  }

  lemma DrainsNext(c: Chip, l: Line, u: nat)
    requires c.Valid() && Ready(c, l.b) && Drains(c.dma.ch[l.b], l, u)
    ensures Drains(Transfer(c, l.b).dma.ch[l.b], l, u + 1)
  {
    TransferCursors(c, l.b, l.b);
    TransferChannel(c, l.b, l.b);
    hide Transfer, Ready;
  }

  lemma FeedTable(c: Chip, l: Line, t: nat, u: nat)
    requires c.Valid() && l.a != l.b && Table(c.dma, l, t, u) && Ready(c, l.a)
    ensures t < l.total && Table(Transfer(c, l.a).dma, l, t + 1, u)
  {
    FeedsNext(c, l, t);
    OthersIdle(c, l.a, l.b);
    hide Transfer, Ready, Feeds;
    forall j | 0 <= j < CHANNELS && j != l.a && j != l.b
      ensures !Transfer(c, l.a).dma.ch[j].busy
    {
      OthersIdle(c, l.a, j) by { FeedsPlain(c.dma.ch[l.a], l, t); }
    }
  }

  lemma FeedsPlain(ch: Channel, l: Line, t: nat)
    requires Feeds(ch, l, t)
    ensures PlainWords(ch.ctrl, l.a)
  {
  }

  lemma DrainTable(c: Chip, l: Line, t: nat, u: nat)
    requires c.Valid() && l.a != l.b && Table(c.dma, l, t, u) && Ready(c, l.b)
    ensures Table(Transfer(c, l.b).dma, l, t, u + 1)
  {
    DrainsNext(c, l, u);
    OthersIdle(c, l.b, l.a);
    hide Transfer, Ready;
    forall j | 0 <= j < CHANNELS && j != l.a && j != l.b
      ensures !Transfer(c, l.b).dma.ch[j].busy
    {
      OthersIdle(c, l.b, j);
    }
  }

  /** Only the two channels can be served. */
  lemma ServedIsOurs(c: Chip, l: Line, t: nat, u: nat, i: nat)
    requires c.Valid() && Table(c.dma, l, t, u) && i < CHANNELS && Ready(c, i)
    ensures i == l.a || i == l.b
  {
    hide TreqReady, CanRead, CanWrite, Feeds, Drains;
  }

  lemma TableDepends(d: Dma, r: Dma, l: Line, t: nat, u: nat)
    requires Table(d, l, t, u) && r.ch == d.ch && r.pio == d.pio
    ensures Table(r, l, t, u)
  {
    hide Feeds, Drains;
  }

  predicate OnlyFifos(a: Sm, b: Sm) {
    b == a.(tx := b.tx, rx := b.rx)
  }

  lemma SelfOnlyFifos(a: Sm)
    ensures OnlyFifos(a, a)
  {
  }

  /** How many words a tick feeds, and drains. */
  function Fed(c: Chip, i: nat): nat
    requires c.Valid()
  {
    if Choice(TickTimers(c)) == Some(i) then 1 else 0
  }

  /** Serving channel `i` moves the pipe and memory together. */
  lemma ServeMoves(c: Chip, l: Line, m0: Memory, t: nat, u: nat, slot: int, i: nat)
    requires c.Valid() && l.Disjoint() && Table(c.dma, l, t, u) && l.g < |c.env.sm| && i < CHANNELS && Ready(c, i)
    requires Conserved(m0, c.mem, l, t, u, Pipe(c.env.sm[l.g], slot))
    ensures var r := Transfer(c, i);
            var t', u' := if i == l.a then t + 1 else t, if i == l.b then u + 1 else u;
            && OnlyFifos(c.env.sm[l.g], r.env.sm[l.g])
            && Table(r.dma, l, t', u') && Conserved(m0, r.mem, l, t', u', Pipe(r.env.sm[l.g], slot))
  {
    hide Transfer, Ready, Table, Conserved, Pipe;
    ServedIsOurs(c, l, t, u, i);
    if i == l.a {
      FeedTable(c, l, t, u);
      FeedTransfer(c, l, t, u, slot);
      FeedConserves(m0, c.mem, l, t, u, Pipe(c.env.sm[l.g], slot));
    } else {
      DrainTable(c, l, t, u);
      DrainTransfer(c, l, t, u, slot);
      DrainConserves(m0, c.mem, l, t, u, c.env.sm[l.g].rx.Pop().1, Pipe(Transfer(c, i).env.sm[l.g], slot));
    }
  }

  lemma TickMoves(c: Chip, l: Line, m0: Memory, t: nat, u: nat, slot: int)
    requires c.Valid() && l.Disjoint() && Table(c.dma, l, t, u) && l.g < |c.env.sm|
    requires Conserved(m0, c.mem, l, t, u, Pipe(c.env.sm[l.g], slot))
    ensures var r := Tick(c);
            && OnlyFifos(c.env.sm[l.g], r.env.sm[l.g])
            && Table(r.dma, l, t + Fed(c, l.a), u + Fed(c, l.b))
            && Conserved(m0, r.mem, l, t + Fed(c, l.a), u + Fed(c, l.b), Pipe(r.env.sm[l.g], slot))
  {
    hide Transfer, Choice, Ready, Tick, TickTimers, Table, Conserved, Pipe, OnlyFifos;
    TickFrame(c);
    var c1 := TickTimers(c);
    TableDepends(c.dma, c1.dma, l, t, u);
    SelfOnlyFifos(c.env.sm[l.g]);
    var x := Choice(c1);
    if x.Some? {
      ServeMoves(c1, l, m0, t, u, slot, x.value);
      TableDepends(Transfer(c1, x.value).dma, Tick(c).dma, l, t + Fed(c, l.a), u + Fed(c, l.b));
    }
  }

  // ---- every run --------------------------------------------------------------------------------

  predicate SysRunnable(ops: seq<SysOp>, e: Env, g: nat) {
    forall k :: 0 <= k < |ops| && ops[k].PioAct? ==> Applies(ops[k].act, e) && HandsOff(ops[k].act, g)
  }

  lemma SysTail(ops: seq<SysOp>, e: Env, r: Env, g: nat)
    requires ops != [] && SysRunnable(ops, e, g) && SameShape(e, r)
    ensures SysRunnable(ops[1..], r, g)
  {
    forall k | 0 <= k < |ops[1..]| && ops[1..][k].PioAct?
      ensures Applies(ops[1..][k].act, r) && HandsOff(ops[1..][k].act, g)
    {
      ApplicabilityIsShape(ops[k + 1].act, e, r);
    }
  }

  function SysRun(s: Sys, ops: seq<SysOp>, g: nat): (r: Sys)
    requires s.Valid() && SysRunnable(ops, s.w.env, g)
    ensures r.Valid()
    decreases ops
  {
    if ops == [] then s
    else
      SysTail(ops, s.w.env, SysDo(s, ops[0], g).w.env, g);
      SysRun(SysDo(s, ops[0], g), ops[1..], g)
  }

  /** Words a run takes from the source (channel a) or delivers (channel b). */
  function Served(s: Sys, ops: seq<SysOp>, g: nat, i: nat): nat
    requires s.Valid() && SysRunnable(ops, s.w.env, g)
    decreases ops
  {
    if ops == [] then 0
    else
      SysTail(ops, s.w.env, SysDo(s, ops[0], g).w.env, g);
      (if ops[0].DmaTick? then Fed(s.AsChip(), i) else 0) + Served(SysDo(s, ops[0], g), ops[1..], g, i)
  }

  lemma ActRuns(s: Sys, act: Act, l: Line, m0: Memory, t: nat, u: nat)
    requires Running(s, l, m0, t, u) && Applies(act, s.w.env) && HandsOff(act, l.g)
    ensures Running(SysDo(s, PioAct(act), l.g), l, m0, t, u)
  {
    hide Table, Conserved, Pipe, Do, Echoing;
    InWorldEchoing(s.w, l.g, l.o);
    ActMoves(s.w, act, l.g, l.o);
    InWorldEchoing(Do(s.w, act), l.g, l.o);
  }

  lemma DmaRuns(s: Sys, l: Line, m0: Memory, t: nat, u: nat)
    requires Running(s, l, m0, t, u)
    ensures Running(SysDo(s, DmaTick, l.g), l, m0, t + Fed(s.AsChip(), l.a), u + Fed(s.AsChip(), l.b))
  {
    hide Table, Conserved, Pipe, Tick, Fed, OnlyFifos;
    InWorldEchoing(s.w, l.g, l.o);
    TickMoves(s.AsChip(), l, m0, t, u, s.w.flow[l.g].pc - l.o);
    var r := SysDo(s, DmaTick, l.g);
    StillEchoing(s.w, r.w, l.g, l.o);
  }

  lemma StillEchoing(w: World, v: World, g: nat, o: nat)
    requires Echoing(w, g, o) && v.Valid() && SameShape(w.env, v.env) && v.flow == w.flow && v.code == w.code
    requires OnlyFifos(w.env.sm[g], v.env.sm[g])
    ensures Echoing(v, g, o)
  {
    hide Decode;
  }

  /** Conservation and order over every interleaving of tick acts and DMA ticks,
      whatever the stalls, dividers, delays and pacing. */
  lemma {:induction false} EchoConserves(s: Sys, l: Line, m0: Memory, t: nat, u: nat, ops: seq<SysOp>)
    requires Running(s, l, m0, t, u) && SysRunnable(ops, s.w.env, l.g)
    ensures Running(SysRun(s, ops, l.g), l, m0, t + Served(s, ops, l.g, l.a), u + Served(s, ops, l.g, l.b))
    decreases ops
  {
    hide Running, SysDo, Fed;
    assert s.Valid() by { RunningValid(s, l, m0, t, u); }
    if ops != [] {
      var r := SysDo(s, ops[0], l.g);
      SysTail(ops, s.w.env, r.w.env, l.g);
      match ops[0]
      case PioAct(act) =>
        ActRuns(s, act, l, m0, t, u);
        EchoConserves(r, l, m0, t, u, ops[1..]);
      case DmaTick =>
        DmaRuns(s, l, m0, t, u);
        EchoConserves(r, l, m0, t + Fed(s.AsChip(), l.a), u + Fed(s.AsChip(), l.b), ops[1..]);
    }
  }

  lemma RunningValid(s: Sys, l: Line, m0: Memory, t: nat, u: nat)
    requires Running(s, l, m0, t, u)
    ensures s.Valid()
  {
  }

  /** From an idle line with empty FIFOs: the source words taken are exactly the
      destination words, then RX, then the word in flight, then TX. */
  lemma EchoFromIdle(s: Sys, l: Line, ops: seq<SysOp>)
    requires s.Valid() && l.Disjoint() && Echoing(s.w, l.g, l.o) && s.w.flow[l.g].pc == l.o && Table(s.dma, l, 0, 0)
    requires s.w.env.sm[l.g].tx.Empty() && s.w.env.sm[l.g].rx.Empty() && SysRunnable(ops, s.w.env, l.g)
    ensures var r, t, u := SysRun(s, ops, l.g), Served(s, ops, l.g, l.a), Served(s, ops, l.g, l.b);
            && r.Valid() && l.g < |r.w.env.sm|
            && Words(s.mem, l.src, t) == Words(r.mem, l.dst, u) + PipeOf(r, l)
  {
    hide *;
    IdleIsEmpty(s, l);
    EchoConserves(s, l, s.mem, 0, 0, ops);
    var r := SysRun(s, ops, l.g);
    RunningShows(r, l, s.mem, Served(s, ops, l.g, l.a), Served(s, ops, l.g, l.b));
  }

  lemma IdleIsEmpty(s: Sys, l: Line)
    requires s.Valid() && l.Disjoint() && Echoing(s.w, l.g, l.o) && s.w.flow[l.g].pc == l.o && Table(s.dma, l, 0, 0)
    requires s.w.env.sm[l.g].tx.Empty() && s.w.env.sm[l.g].rx.Empty()
    ensures Running(s, l, s.mem, 0, 0)
  {
    hide Peek, Table, Decode;
  }

  lemma RunningShows(s: Sys, l: Line, m0: Memory, t: nat, u: nat)
    requires Running(s, l, m0, t, u)
    ensures s.Valid() && l.g < |s.w.env.sm| && Words(m0, l.src, t) == Words(s.mem, l.dst, u) + PipeOf(s, l)
  {
    hide Table, Peek, Words, Pipe, Decode;
  }
}
