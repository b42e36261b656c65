/** The shift registers: serialising with OUT and rebuilding with IN, and the
    exact bit stream an autopull program takes from the TX FIFO. */
module Shift {
  import opened Bits
  import opened Isa
  import opened Machine
  import opened Runs
  import opened Window
  import ReverseWord

  // ---- one shift, in terms of bit positions ------------------------------------

  lemma ShiftInBits(dir: Dir, isr: Word, v: Word, c: nat)
    requires 1 <= c <= 32
    ensures ShiftIn(dir, isr, v, c) == if dir == Right then isr[c..] + v[..c] else v[..c] + isr[..32 - c]
  {
  }

  lemma ShiftOutBits(dir: Dir, osr: Word, c: nat)
    requires 1 <= c <= 32
    ensures ShiftOutValue(dir, osr, c)[..c] == if dir == Right then osr[..c] else osr[32 - c..]
    ensures ShiftOutRest(dir, osr, c) == if dir == Right then osr[c..] + Zeros(c) else Zeros(c) + osr[..32 - c]
  {
    if c < 32 && dir == Left {
      var s := Shr(osr, 32 - c);
      assert s[..c] == osr[32 - c..];
    }
  }

  // ---- serialise / deserialise ---------------------------------------------------

  function Sum(cs: seq<nat>): nat {
    if cs == [] then 0 else Sum(cs[..|cs| - 1]) + cs[|cs| - 1]
  }

  predicate Chunks(cs: seq<nat>) {
    forall i :: 0 <= i < |cs| ==> 1 <= cs[i] <= 32
  }

  /** OUT c bits, IN the same c bits, for each chunk in turn: (OSR, ISR). */
  function Transfer(outDir: Dir, inDir: Dir, osr: Word, isr: Word, cs: seq<nat>): (Word, Word)
    requires Chunks(cs)
  {
    if cs == [] then (osr, isr)
    else
      var p := Transfer(outDir, inDir, osr, isr, cs[..|cs| - 1]);
      var c := cs[|cs| - 1];
      (ShiftOutRest(outDir, p.0, c), ShiftIn(inDir, p.1, ShiftOutValue(outDir, p.0, c), c))
  }

  /** (OSR, ISR) once `a` bits of `w` have moved in matching directions. */
  function Moved(dir: Dir, w: Word, isr: Word, a: nat): (Word, Word)
    requires a <= 32
  {
    if dir == Right then (w[a..] + Zeros(a), isr[a..] + w[..a])
    else (Zeros(a) + w[..32 - a], w[32 - a..] + isr[..32 - a])
  }

  /** Dropping `c` low bits after `a`, with zeros coming in at the top. */
  lemma DropTwice(w: Word, a: nat, c: nat)
    requires a + c <= 32
    ensures (w[a..] + Zeros(a))[c..] + Zeros(c) == w[a + c..] + Zeros(a + c)
    ensures (w[a..] + Zeros(a))[..c] == w[a..a + c]
  {
  }

  lemma MovedRight(w: Word, isr: Word, a: nat, c: nat)
    requires 1 <= c && a + c <= 32
    ensures var p := Moved(Right, w, isr, a);
            (p.0[c..] + Zeros(c), p.1[c..] + p.0[..c]) == Moved(Right, w, isr, a + c)
  {
    hide Zeros;
    DropTwice(w, a, c);
    assert (isr[a..] + w[..a])[c..] + w[a..a + c] == isr[a + c..] + w[..a + c];
  }

  /** Dropping `c` high bits after `a`, with zeros coming in at the bottom. */
  lemma LiftTwice(w: Word, a: nat, c: nat)
    requires a + c <= 32
    ensures Zeros(c) + (Zeros(a) + w[..32 - a])[..32 - c] == Zeros(a + c) + w[..32 - (a + c)]
    ensures (Zeros(a) + w[..32 - a])[32 - c..] == w[32 - (a + c)..32 - a]
  {
  }

  lemma MovedLeft(w: Word, isr: Word, a: nat, c: nat)
    requires 1 <= c && a + c <= 32
    ensures var p := Moved(Left, w, isr, a);
            (Zeros(c) + p.0[..32 - c], p.0[32 - c..] + p.1[..32 - c]) == Moved(Left, w, isr, a + c)
  {
    hide Zeros;
    LiftTwice(w, a, c);
    assert w[32 - (a + c)..32 - a] + (w[32 - a..] + isr[..32 - a])[..32 - c] == w[32 - (a + c)..] + isr[..32 - (a + c)];
  }

  /** One matching OUT/IN pair moves `c` more bits. */
  lemma MovedStep(dir: Dir, w: Word, isr: Word, a: nat, c: nat)
    requires 1 <= c && a + c <= 32
    ensures var p := Moved(dir, w, isr, a);
            (ShiftOutRest(dir, p.0, c), ShiftIn(dir, p.1, ShiftOutValue(dir, p.0, c), c)) == Moved(dir, w, isr, a + c)
  {
    hide ShiftIn, ShiftOutValue, ShiftOutRest, Moved;
    var p := Moved(dir, w, isr, a);
    ShiftOutBits(dir, p.0, c);
    ShiftInBits(dir, p.1, ShiftOutValue(dir, p.0, c), c);
    if dir == Right { MovedRight(w, isr, a, c); } else { MovedLeft(w, isr, a, c); }
  }

  lemma MovedNone(dir: Dir, w: Word, isr: Word)
    ensures Moved(dir, w, isr, 0) == (w, isr)
  {
    var m := Moved(dir, w, isr, 0);
    assert m.0 == w && m.1 == isr;
  }

  lemma {:induction false} TransferPrefix(dir: Dir, w: Word, isr: Word, cs: seq<nat>)
    requires Chunks(cs) && Sum(cs) <= 32
    ensures Transfer(dir, dir, w, isr, cs) == Moved(dir, w, isr, Sum(cs))
  {
    hide ShiftIn, ShiftOutValue, ShiftOutRest, Moved;
    if cs != [] {
      var init := cs[..|cs| - 1];
      TransferPrefix(dir, w, isr, init);
      MovedStep(dir, w, isr, Sum(init), cs[|cs| - 1]);
    } else {
      MovedNone(dir, w, isr);
    }
  }

  /** Any split of 32 bits: OUT then IN of each chunk, same direction, rebuilds
      the word, whatever the ISR held before. */
  lemma SerialiseRoundTrip(dir: Dir, w: Word, isr: Word, cs: seq<nat>)
    requires Chunks(cs) && Sum(cs) == 32
    ensures Transfer(dir, dir, w, isr, cs).1 == w
  {
    hide Transfer, Moved, Sum;
    TransferPrefix(dir, w, isr, cs);
    MovedAll(dir, w, isr);
  }

  lemma MovedAll(dir: Dir, w: Word, isr: Word)
    ensures Moved(dir, w, isr, 32).1 == w
  {
  }

  function OneBitChunks(n: nat): (cs: seq<nat>)
    ensures |cs| == n && Chunks(cs)
  {
    seq(n, _ => 1)
  }

  function Opposite(dir: Dir): Dir {
    if dir == Right then Left else Right
  }

  /** (OSR, ISR) once `n` bits of `w` have moved one by one in opposite
      directions. */
  function Mirrored(outDir: Dir, w: Word, isr: Word, n: nat): (Word, Word)
    requires n <= 32
  {
    if outDir == Right then (w[n..] + Zeros(n), Reverse(w[..n]) + isr[..32 - n])
    else (Zeros(n) + w[..32 - n], isr[n..] + Reverse(w[32 - n..]))
  }

  lemma MirroredRight(w: Word, isr: Word, n: nat)
    requires n < 32
    ensures var p := Mirrored(Right, w, isr, n);
            (p.0[1..] + Zeros(1), p.0[..1] + p.1[..31]) == Mirrored(Right, w, isr, n + 1)
  {
    var p, q := Mirrored(Right, w, isr, n), Mirrored(Right, w, isr, n + 1);
    assert p.0[1..] + Zeros(1) == q.0;
    var done := Reverse(w[..n]);
    assert Reverse(w[..n + 1]) == [w[n]] + done;
    assert p.0[..1] == [w[n]];
    assert p.1[..31] == done + isr[..31 - n];
    assert p.0[..1] + p.1[..31] == q.1;
  }

  lemma MirroredLeft(w: Word, isr: Word, n: nat)
    requires n < 32
    ensures var p := Mirrored(Left, w, isr, n);
            (Zeros(1) + p.0[..31], p.1[1..] + p.0[31..]) == Mirrored(Left, w, isr, n + 1)
  {
    var p, q := Mirrored(Left, w, isr, n), Mirrored(Left, w, isr, n + 1);
    assert Zeros(1) + p.0[..31] == q.0;
    var done := Reverse(w[32 - n..]);
    assert Reverse(w[31 - n..]) == done + [w[31 - n]];
    assert p.0[31..] == [w[31 - n]];
    assert p.1[1..] == isr[n + 1..] + done;
    assert p.1[1..] + p.0[31..] == q.1;
  }

  lemma {:induction false} ReversePrefix(outDir: Dir, w: Word, isr: Word, n: nat)
    requires n <= 32
    ensures Transfer(outDir, Opposite(outDir), w, isr, OneBitChunks(n)) == Mirrored(outDir, w, isr, n)
  {
    hide ShiftIn, ShiftOutValue, ShiftOutRest;
    if n > 0 {
      var inDir := Opposite(outDir);
      ReversePrefix(outDir, w, isr, n - 1);
      assert OneBitChunks(n)[..n - 1] == OneBitChunks(n - 1);
      var p := Transfer(outDir, inDir, w, isr, OneBitChunks(n - 1));
      ShiftOutBits(outDir, p.0, 1);
      ShiftInBits(inDir, p.1, ShiftOutValue(outDir, p.0, 1), 1);
      if outDir == Right { MirroredRight(w, isr, n - 1); } else { MirroredLeft(w, isr, n - 1); }
    } else {
      var m := Mirrored(outDir, w, isr, 0);
      assert m.0 == w && m.1 == isr;
    }
  }

  /** 32 one-bit steps in opposite directions reverse the word. */
  lemma OppositeDirectionsReverse(outDir: Dir, w: Word, isr: Word)
    ensures Transfer(outDir, Opposite(outDir), w, isr, OneBitChunks(32)).1 == Reverse(w)
  {
    ReversePrefix(outDir, w, isr, 32);
    assert w[..32] == w && w[32 - 32..] == w;
  }

  /** In machine integers: the word that arrives is pio_reverse32 of the one sent. */
  lemma OppositeDirectionsSwap(outDir: Dir, v: bv32, isr: Word)
    ensures var w: Word := ReverseWord.LsbFirst(v, 32);
            Transfer(outDir, Opposite(outDir), w, isr, OneBitChunks(32)).1
              == ReverseWord.LsbFirst(ReverseWord.Reverse32(v), 32)
  {
    hide Transfer;
    OppositeDirectionsReverse(outDir, ReverseWord.LsbFirst(v, 32), isr);
    ReverseWord.SwapNetworkReverses(v);
  }

  /** MOV with `::` delivers pio_reverse32 of its source. */
  lemma MovReverseSwaps(v: bv32)
    ensures MovValue(2, ReverseWord.LsbFirst(v, 32)) == ReverseWord.LsbFirst(ReverseWord.Reverse32(v), 32)
  {
    ReverseWord.SwapNetworkReverses(v);
  }

  /** The pair `out x, c ; in x, c` is one such chunk when neither autopull nor
      autopush interferes. */
  lemma OutThenIn(e: Env, g: nat, c: nat)
    requires Has(e, g) && 1 <= c <= 32 && !e.sm[g].cfg.autopull && !e.sm[g].cfg.autopush
    ensures var sm := e.sm[g];
            var r := ExecIn(ExecOut(e, g, 1, c).env, g, 1, c);
            !r.stalled && r.env.sm[g].osr == ShiftOutRest(sm.cfg.outDir, sm.osr, c)
            && r.env.sm[g].isr == ShiftIn(sm.cfg.inDir, sm.isr, ShiftOutValue(sm.cfg.outDir, sm.osr, c), c)
  {
  }

  // ---- autopull streaming ----------------------------------------------------------

  /** The bits of a word in the order OUT delivers them. */
  function InOrder(dir: Dir, w: seq<bool>): (r: seq<bool>)
    ensures |r| == |w|
  {
    if dir == Right then w else Reverse(w)
  }

  /** What a TX word contributes to the stream: its first `t` bits. */
  function WordBits(dir: Dir, t: nat, w: Word): seq<bool> {
    InOrder(dir, w)[..if t <= 32 then t else 32]
  }

  function QueueBits(dir: Dir, t: nat, q: seq<Word>): seq<bool> {
    if q == [] then [] else WordBits(dir, t, q[0]) + QueueBits(dir, t, q[1..])
  }

  /** Bits still to come: the rest of the OSR up to the threshold, then TX. */
  function Pending(sm: Sm): seq<bool> {
    if sm.osrCount >= sm.cfg.pullThresh || sm.cfg.pullThresh > 32 then []
    else InOrder(sm.cfg.outDir, sm.osr)[..sm.cfg.pullThresh - sm.osrCount]
  }

  function Stream(sm: Sm): seq<bool> {
    Pending(sm) + QueueBits(sm.cfg.outDir, sm.cfg.pullThresh, sm.tx.Contents())
  }

  /** The streaming regime: autopull on, the threshold a multiple of the OUT
      width, the OSR at a chunk boundary, nothing injected. */
  predicate Streaming(sm: Sm, c: nat) {
    && sm.cfg.autopull && 1 <= c <= sm.cfg.pullThresh <= 32
    && (sm.osrCount < sm.cfg.pullThresh ==> (sm.cfg.pullThresh - sm.osrCount) % c == 0)
    && sm.cfg.pullThresh % c == 0
    && !sm.execPending
  }

  /** Instructions that touch the OSR only by OUTs of width `c`, and inject
      nothing. */
  predicate OutOnly(op: Op, c: nat) {
    && !op.Pull? && !(op.RxFifo? && op.get)
    && (op.Mov? ==> op.dest != 4 && op.dest != 7)
    && (op.Out? ==> op.count == c && op.dest != 7)
  }

  /** The bits a presented instruction delivers. */
  function OutBits(sm: Sm, op: Op): seq<bool>
    requires Encodable(op)
  {
    if op.Out? && !(sm.cfg.autopull && sm.osrCount >= sm.cfg.pullThresh) then
      InOrder(sm.cfg.outDir, ShiftOutValue(sm.cfg.outDir, sm.osr, op.count)[..op.count])
    else []
  }

  /** The bits one cycle of state machine `g` delivers. */
  function CycleBits(w: World, g: nat): seq<bool>
    requires InWorld(w, g)
  {
    var sm := Autopull(w.env.sm[g]);
    if sm.delay > 0 then [] else OutBits(sm, Decode(Presented(w, g)))
  }

  /** The bits state machine `g` delivers if it is clocked now. */
  function Delivered(w: World, g: nat): seq<bool>
    requires InWorld(w, g)
  {
    if Due(w.env.sm[g]) && w.env.sm[g].enabled then CycleBits(WithSm(w, g, Ticked(w.env.sm[g])), g) else []
  }

  lemma {:induction false} QueueBitsAppend(dir: Dir, t: nat, q: seq<Word>, w: Word)
    ensures QueueBits(dir, t, q + [w]) == QueueBits(dir, t, q) + WordBits(dir, t, w)
  {
    if q == [] {
      assert q + [w] == [w];
      assert QueueBits(dir, t, [w][1..]) == [];
    } else {
      assert (q + [w])[1..] == q[1..] + [w];
      QueueBitsAppend(dir, t, q[1..], w);
    }
  }

  /** Background autopull moves a word from TX to the OSR without changing the
      stream. */
  lemma AutopullKeepsStream(sm: Sm, c: nat)
    requires Streaming(sm, c)
    ensures Stream(Autopull(sm)) == Stream(sm) && Streaming(Autopull(sm), c)
  {
    hide Stream, Refill;
    if sm.osrCount >= sm.cfg.pullThresh { RefillKeepsStream(sm, c); }
  }

  lemma RefillKeepsStream(sm: Sm, c: nat)
    requires Streaming(sm, c) && sm.osrCount >= sm.cfg.pullThresh
    ensures Stream(Refill(sm)) == Stream(sm) && Streaming(Refill(sm), c)
  {
    hide InOrder;
    var p := sm.tx.Pop();
    if p.2 {
      var q := sm.tx.Contents();
      assert q[0] == p.1 && q[1..] == p.0.Contents();
    }
  }

  lemma InOrderAfterOut(dir: Dir, osr: Word, c: nat)
    requires 1 <= c <= 32
    ensures InOrder(dir, ShiftOutValue(dir, osr, c)[..c]) == InOrder(dir, osr)[..c]
    ensures InOrder(dir, ShiftOutRest(dir, osr, c)) == InOrder(dir, osr)[c..] + Zeros(c)
  {
    ShiftOutBits(dir, osr, c);
  }

  lemma MultipleLeft(left: nat, c: nat)
    requires 1 <= c && left > 0 && left % c == 0
    ensures c <= left && (left - c) % c == 0
  {
    var q := left / c;
    assert left == q * c;
    assert q >= 1;
    assert left - c == (q - 1) * c + 0;
    ModUnique(left - c, c, q - 1, 0);
  }

  /** An OUT delivers the next `c` bits of the stream. */
  lemma OutTakesStream(sm: Sm, c: nat, r: Sm)
    requires Streaming(sm, c) && sm.osrCount < sm.cfg.pullThresh
    requires r.cfg == sm.cfg && r.tx == sm.tx && !r.execPending
    requires r.osr == ShiftOutRest(sm.cfg.outDir, sm.osr, c) && r.osrCount == sm.osrCount + c
    ensures InOrder(sm.cfg.outDir, ShiftOutValue(sm.cfg.outDir, sm.osr, c)[..c]) + Stream(r) == Stream(sm)
    ensures Streaming(r, c)
  {
    hide InOrder, ShiftOutRest, ShiftOutValue, QueueBits;
    var t, n, dir := sm.cfg.pullThresh, sm.osrCount, sm.cfg.outDir;
    MultipleLeft(t - n, c);
    InOrderAfterOut(dir, sm.osr, c);
    TakeThenRest(InOrder(dir, sm.osr), Zeros(c), t - n, c);
    Associate(InOrder(dir, sm.osr)[..c], Pending(r), QueueBits(dir, t, sm.tx.Contents()));
  }

  lemma TakeThenRest(s: seq<bool>, z: seq<bool>, m: nat, c: nat)
    requires c <= m <= |s|
    ensures s[..m] == s[..c] + (s[c..] + z)[..m - c]
  {
  }

  lemma Associate(a: seq<bool>, b: seq<bool>, c: seq<bool>)
    ensures a + (b + c) == (a + b) + c
  {
  }

  /** State machine `g` runs a program at `p` whose words keep to the regime; the rest
      of the block's memory may hold anything. */
  ghost predicate RunsOutOnly(w: World, g: nat, p: Home, c: nat) {
    Confined(w, g, p) && forall i :: p.Has(i) ==> OutOnly(WordAt(w, g, i), c)
  }

  lemma StillOutOnly(w: World, v: World, g: nat, p: Home, c: nat)
    requires RunsOutOnly(w, g, p, c) && Confined(v, g, p) && v.code[g / 4].insn == w.code[g / 4].insn
    ensures RunsOutOnly(v, g, p, c)
  {
    hide Decode, OutOnly, Confined;
    assert InWorld(w, g) && InWorld(v, g) by { ConfinedWorld(w, g, p); ConfinedWorld(v, g, p); }
    forall i | p.Has(i)
      ensures OutOnly(WordAt(v, g, i), c)
    {
      assert WordAt(v, g, i) == WordAt(w, g, i);
    }
  }

  /** What a confined machine is about to present comes from its program. */
  lemma PresentsOutOnly(w: World, g: nat, p: Home, c: nat)
    requires RunsOutOnly(w, g, p, c) && !w.env.sm[g].execPending
    ensures OutOnly(Decode(Presented(w, g)), c)
  {
    hide Decode, OutOnly;
    SmallMod(w.flow[g].pc, 32);
    assert OutOnly(WordAt(w, g, w.flow[g].pc), c);
  }

  lemma OtherOpKeepsStream(e: Env, g: nat, op: Op, c: nat)
    requires Has(e, g) && Encodable(op) && OutOnly(op, c) && !op.Out?
    ensures var r := ExecOp(e, g, op).env.sm[g]; SameOut(e.sm[g], r) && SameSlot(e.sm[g], r)
  {
  }

  /** What an OUT of `c` bits does to the output side. */
  predicate TookBits(sm: Sm, r: Sm, c: nat)
    requires 1 <= c <= 32
  {
    && r.cfg == sm.cfg && SameSlot(sm, r) && r.tx == sm.tx
    && if sm.cfg.autopull && sm.osrCount >= sm.cfg.pullThresh then SameOut(sm, r)
       else && r.osr == ShiftOutRest(sm.cfg.outDir, sm.osr, c)
            && r.osrCount == if sm.osrCount + c > 32 then 32 else sm.osrCount + c
  }

  lemma StoredAfterShift(e: Env, g: nat, dest: nat, c: nat)
    requires Has(e, g) && 1 <= c <= 32 && dest != 7
    ensures var r := OutAfterShift(e, g, dest, c).env.sm[g]; SameOut(OutShifted(e.sm[g], c), r) && SameSlot(e.sm[g], r)
  {
    hide ShiftOutValue, ShiftOutRest, OutPins;
  }

  lemma OutOp(e: Env, g: nat, dest: nat, c: nat)
    requires Has(e, g) && 1 <= c <= 32 && dest != 7
    ensures TookBits(e.sm[g], ExecOut(e, g, dest, c).env.sm[g], c)
  {
    hide ShiftOutRest, ShiftOutValue, OutAfterShift;
    StoredAfterShift(e, g, dest, c);
  }

  lemma StillStreaming(a: Sm, b: Sm, c: nat)
    requires Streaming(a, c) && SameOut(a, b) && SameSlot(a, b) && b.cfg == a.cfg
    ensures Streaming(b, c)
  {
  }

  lemma TookFromStream(sm: Sm, r: Sm, dest: nat, c: nat)
    requires dest < 8 && Streaming(sm, c) && TookBits(sm, r, c)
    ensures OutBits(sm, Op.Out(dest, c)) + Stream(r) == Stream(sm) && Streaming(r, c)
  {
    hide ShiftOutRest, ShiftOutValue, Stream, InOrder;
    if !(sm.cfg.autopull && sm.osrCount >= sm.cfg.pullThresh) {
      MultipleLeft(sm.cfg.pullThresh - sm.osrCount, c);
      OutTakesStream(sm, c, r);
    } else {
      hide Streaming;
      SameStream(sm, r);
      StillStreaming(sm, r, c);
    }
  }

  lemma OtherTakes(e: Env, g: nat, op: Op, c: nat)
    requires Has(e, g) && Encodable(op) && OutOnly(op, c) && !op.Out? && Streaming(e.sm[g], c)
    ensures var sm, r := e.sm[g], ExecOp(e, g, op);
            OutBits(sm, op) + Stream(r.env.sm[g]) == Stream(sm) && Streaming(r.env.sm[g], c)
  {
    hide Stream, Streaming, ExecOp, OutOnly, Encodable;
    OtherOpKeepsStream(e, g, op, c);
    SameStream(e.sm[g], ExecOp(e, g, op).env.sm[g]);
    StillStreaming(e.sm[g], ExecOp(e, g, op).env.sm[g], c);
  }

  lemma OutDispatch(e: Env, g: nat, op: Op)
    requires Has(e, g) && Encodable(op) && op.Out?
    ensures ExecOp(e, g, op) == ExecOut(e, g, op.dest, op.count)
  {
    hide ExecBy, Repads, Has, ExecOut;
  }

  /** Presenting an instruction delivers a prefix of the stream and keeps the
      rest. */
  lemma OpTakesStream(e: Env, g: nat, op: Op, c: nat)
    requires Has(e, g) && Encodable(op) && OutOnly(op, c) && Streaming(e.sm[g], c)
    ensures var sm, r := e.sm[g], ExecOp(e, g, op);
            OutBits(sm, op) + Stream(r.env.sm[g]) == Stream(sm) && Streaming(r.env.sm[g], c)
  {
    hide Stream, OutBits, ExecOp, ExecOut, TookBits;
    if op.Out? {
      OutDispatch(e, g, op);
      OutOp(e, g, op.dest, c);
      TookFromStream(e.sm[g], ExecOut(e, g, op.dest, c).env.sm[g], op.dest, c);
    } else {
      OtherTakes(e, g, op, c);
    }
  }

  lemma SameStream(a: Sm, b: Sm)
    requires SameOut(a, b) && b.cfg == a.cfg
    ensures Stream(b) == Stream(a)
  {
  }

  lemma ConfinedRuns(w: World, g: nat, p: Home, c: nat)
    requires RunsOutOnly(w, g, p, c)
    ensures Confined(w, g, p) && InWorld(w, g)
  {
  }

  lemma PresentTakesStream(w: World, g: nat, insn: Insn, c: nat)
    requires InWorld(w, g) && OutOnly(Decode(insn), c) && Streaming(w.env.sm[g], c)
    ensures var sm, r := w.env.sm[g], PresentInsn(w, g, insn, false).env.sm[g];
            OutBits(sm, Decode(insn)) + Stream(r) == Stream(sm) && Streaming(r, c)
  {
    hide OutBits, Stream, ExecOp, ApplySide, Decode, Streaming, DelaySideOf, RetireFlow, CountFetch;
    OpTakesStream(w.env, g, Decode(insn), c);
    var r1 := ExecOp(w.env, g, Decode(insn));
    var r2 := ExecOne(w.env, g, insn);
    SlotStaysFree(r1.env.sm[g], r2.env.sm[g], c);
    SameStream(r1.env.sm[g], r2.env.sm[g]);
    var r3 := PresentInsn(w, g, insn, false).env.sm[g];
    assert !r2.env.sm[g].execPending by { SlotStaysFree(r1.env.sm[g], r2.env.sm[g], c); SlotStaysFree(r2.env.sm[g], r2.env.sm[g], c); }
    SlotStaysFree(r2.env.sm[g], r3, c);
    SameStream(r2.env.sm[g], r3);
  }

  /** A step that keeps the output side, configuration and slot keeps the regime. */
  lemma SlotStaysFree(a: Sm, b: Sm, c: nat)
    requires Streaming(a, c) && SameOut(a, b) && SameSlot(a, b) && b.cfg == a.cfg
    ensures Streaming(b, c) && !a.execPending
  {
  }

  /** The world SmCycle presents from when no delay is pending. */
  lemma CycleUnfold(w: World, g: nat)
    requires InWorld(w, g)
    ensures var sm := Autopull(w.env.sm[g]);
            && LocalTo(w.env.sm[g], sm) && sm.x == w.env.sm[g].x
            && (if sm.delay > 0 then SmCycle(w, g) == WithSm(w, g, sm.(delay := sm.delay - 1)) && CycleBits(w, g) == []
                else SmCycle(w, g) == PresentInsn(WithSm(w, g, sm), g, Presented(w, g), sm.execPending)
                     && CycleBits(w, g) == OutBits(sm, Decode(Presented(w, g))))
  {
    hide PresentInsn, OutBits, Decode;
  }

  lemma CycleTakesStream(w: World, g: nat, p: Home, c: nat)
    requires RunsOutOnly(w, g, p, c) && Streaming(w.env.sm[g], c)
    ensures CycleBits(w, g) + Stream(SmCycle(w, g).env.sm[g]) == Stream(w.env.sm[g])
    ensures Streaming(SmCycle(w, g).env.sm[g], c)
  {
    hide OutBits, Stream, PresentInsn, Decode, OutOnly, RunsOutOnly, Confined, Autopull, SmCycle, CycleBits;
    ConfinedRuns(w, g, p, c);
    PresentsOutOnly(w, g, p, c);
    CycleUnfold(w, g);
    AutopullKeepsStream(w.env.sm[g], c);
    var sm := Autopull(w.env.sm[g]);
    if sm.delay > 0 {
      SameStream(sm, sm.(delay := sm.delay - 1));
    } else {
      PresentTakesStream(WithSm(w, g, sm), g, Presented(w, g), c);
    }
  }

  /** One clock of the streaming state machine: what it delivers, then what is
      left, is what there was. */
  lemma ClockTakesStream(w: World, g: nat, p: Home, c: nat)
    requires RunsOutOnly(w, g, p, c) && Streaming(w.env.sm[g], c)
    ensures Delivered(w, g) + Stream(Clock(w, g).env.sm[g]) == Stream(w.env.sm[g])
    ensures Streaming(Clock(w, g).env.sm[g], c)
  {
    hide Stream, SmCycle, CycleBits, RunsOutOnly, Confined;
    ConfinedRuns(w, g, p, c);
    var sm := w.env.sm[g];
    SameStream(sm, Ticked(sm));
    var w1 := WithSm(w, g, Ticked(sm));
    if Due(sm) && sm.enabled {
      StaysHome(w, w1, g, p);
      StillOutOnly(w, w1, g, p, c);
      CycleTakesStream(w1, g, p, c);
      var r := SmCycle(w1, g).env.sm[g];
      SameStream(r, Sticky(r));
    }
  }

  /** Bits an act delivers from state machine `g`. */
  function ActOut(w: World, act: Act, g: nat): seq<bool>
    requires w.Valid() && Applies(act, w.env)
  {
    if act.ClockSm? && act.g == g then Delivered(w, g) else []
  }

  /** Bits an act adds to state machine `g`'s TX: those of an accepted word. */
  function ActIn(w: World, act: Act, g: nat): seq<bool>
    requires InWorld(w, g) && Applies(act, w.env)
  {
    var sm := w.env.sm[g];
    if act.Put? && act.g == g && !sm.tx.Full() then WordBits(sm.cfg.outDir, sm.cfg.pullThresh, act.word) else []
  }

  lemma PutExtendsStream(sm: Sm, word: Word)
    ensures Stream(PutWord(sm, word)) ==
            Stream(sm) + if sm.tx.Full() then [] else WordBits(sm.cfg.outDir, sm.cfg.pullThresh, word)
  {
    hide Pending, QueueBits, WordBits, PutWord;
    PutKeepsPending(sm, word);
    if !sm.tx.Full() {
      var dir, t, q := sm.cfg.outDir, sm.cfg.pullThresh, sm.tx.Contents();
      QueueBitsAppend(dir, t, q, word);
      Associate(Pending(sm), QueueBits(dir, t, q), WordBits(dir, t, word));
    }
  }

  lemma PutKeepsPending(sm: Sm, word: Word)
    ensures var r := PutWord(sm, word);
            && Pending(r) == Pending(sm) && r.cfg == sm.cfg
            && r.tx.Contents() == if sm.tx.Full() then sm.tx.Contents() else sm.tx.Contents() + [word]
  {
    hide InOrder;
  }

  lemma PutKeepsRegime(sm: Sm, word: Word)
    ensures var r := PutWord(sm, word); r.cfg == sm.cfg && r.osrCount == sm.osrCount && SameSlot(sm, r)
  {
  }

  /** Every act conserves the stream: delivered ++ remaining == before ++ added. */
  lemma ActConservesStream(w: World, act: Act, g: nat, p: Home, c: nat)
    requires RunsOutOnly(w, g, p, c) && Applies(act, w.env) && Streaming(w.env.sm[g], c)
    ensures var r := Do(w, act);
            && ActOut(w, act, g) + Stream(r.env.sm[g]) == Stream(w.env.sm[g]) + ActIn(w, act, g)
            && Streaming(r.env.sm[g], c) && RunsOutOnly(r, g, p, c)
  {
    hide Clock, DoEnv, Stream, Delivered, WordBits, RunsOutOnly, Confined, PutWord;
    ConfinedRuns(w, g, p, c);
    DoKeepsCode(w, act, g / 4);
    ActConfined(w, act, g, p);
    StillOutOnly(w, Do(w, act), g, p, c);
    if act.ClockSm? {
      if act.g == g { ClockTakesStream(w, g, p, c); }
    } else {
      EnvActFrame(w.env, act, g);
      if act.Put? && act.g == g {
        assert DoEnv(w.env, act).sm[g] == PutWord(w.env.sm[g], act.word) by { ActOnRecord(w.env, act, g); }
        PutExtendsStream(w.env.sm[g], act.word);
        PutKeepsRegime(w.env.sm[g], act.word);
      } else {
        SameStream(w.env.sm[g], DoEnv(w.env, act).sm[g]);
      }
    }
  }

  function RunOut(w: World, acts: seq<Act>, g: nat): seq<bool>
    requires w.Valid() && Runnable(acts, w.env)
    decreases acts
  {
    if acts == [] then []
    else
      RunnableTail(acts, w.env, Do(w, acts[0]).env);
      ActOut(w, acts[0], g) + RunOut(Do(w, acts[0]), acts[1..], g)
  }

  function RunIn(w: World, acts: seq<Act>, g: nat): seq<bool>
    requires InWorld(w, g) && Runnable(acts, w.env)
    decreases acts
  {
    if acts == [] then []
    else
      RunnableTail(acts, w.env, Do(w, acts[0]).env);
      ActIn(w, acts[0], g) + RunIn(Do(w, acts[0]), acts[1..], g)
  }

  /** Autopull streams exactly. Over every run, with any stalls, delays and host
      acts, the bits delivered by OUT are the first `pullThresh` bits of each
      word in TX order: delivered ++ still pending == pending before ++ bits of
      the words accepted. */
  lemma {:induction false} AutopullStreamsExactly(w: World, acts: seq<Act>, g: nat, p: Home, c: nat)
    requires RunsOutOnly(w, g, p, c) && Runnable(acts, w.env) && Streaming(w.env.sm[g], c)
    ensures InWorld(w, g)
    ensures RunOut(w, acts, g) + Stream(Run(w, acts).env.sm[g]) == Stream(w.env.sm[g]) + RunIn(w, acts, g)
    decreases acts
  {
    hide Do, Stream, ActOut, ActIn, Streaming, RunsOutOnly;
    ConfinedRuns(w, g, p, c);
    if acts != [] {
      var act := acts[0];
      ActConservesStream(w, act, g, p, c);
      var w' := Do(w, act);
      RunnableTail(acts, w.env, w'.env);
      AutopullStreamsExactly(w', acts[1..], g, p, c);
      Regroup(ActOut(w, act, g), RunOut(w', acts[1..], g), Stream(Run(w', acts[1..]).env.sm[g]),
              Stream(w'.env.sm[g]), RunIn(w', acts[1..], g), Stream(w.env.sm[g]), ActIn(w, act, g));
    }
  }

  lemma Regroup(o: seq<bool>, os: seq<bool>, s2: seq<bool>, s1: seq<bool>, ins: seq<bool>, s0: seq<bool>, i: seq<bool>)
    requires o + s1 == s0 + i && os + s2 == s1 + ins
    ensures (o + os) + s2 == s0 + (i + ins)
  {
    assert (o + os) + s2 == o + (os + s2);
    assert o + (s1 + ins) == (o + s1) + ins;
    assert (s0 + i) + ins == s0 + (i + ins);
  }
}
