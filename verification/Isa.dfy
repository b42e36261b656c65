/** The PIO instruction set: 16-bit words, the decoder `exec_one` applies to
    them, the encoders, and the shared delay/side-set field. */
module Isa {
  import opened Bits

  /** A decoded instruction. Operand fields keep the numbers of the encoding;
      bit counts are 1..32 (32 is encoded as 0). */
  datatype Op =
    | Jmp(cond: nat, addr: nat)
    | Wait(polarity: nat, source: nat, index: nat)
    | In(src: nat, count: nat)
    | Out(dest: nat, count: nat)
    | Push(ifFull: bool, block: bool)
    | Pull(ifEmpty: bool, block: bool)
    | RxFifo(get: bool, literal: bool, idx: nat)
    | Mov(dest: nat, op: nat, src: nat)
    | Irq(clear: bool, wait: bool, field: nat)
    | Set(dest: nat, value: nat)

  const INSN_LIMIT: nat := 65536

  type Insn = n: nat | n < INSN_LIMIT

  /** A 5-bit count field: 0 stands for 32. */
  function CountOf(field: nat): nat {
    if field == 0 then 32 else field
  }

  /** Operand ranges of instructions that have an encoding. */
  predicate Encodable(op: Op) {
    match op
    case Jmp(cond, addr) => cond < 8 && addr < 32
    case Wait(polarity, source, index) => polarity < 2 && source < 4 && index < 32
    case In(src, count) => src < 8 && 1 <= count <= 32
    case Out(dest, count) => dest < 8 && 1 <= count <= 32
    case Push(_, _) => true
    case Pull(_, _) => true
    case RxFifo(_, literal, idx) => idx < 4 && (!literal ==> idx == 0)
    case Mov(dest, mop, src) => dest < 8 && mop < 4 && src < 8
    case Irq(_, _, field) => field < 32
    case Set(dest, value) => dest < 8 && value < 32
  }

  /** The operation `exec_one` runs for opcode `top`, operand bits [7:5] `hi`
      and operand bits [4:0] `lo`. */
  function DecodeFields(top: nat, hi: nat, lo: nat): (op: Op)
    requires top < 8 && hi < 8 && lo < 32
    ensures Encodable(op)
  {
    match top
    case 0 => Jmp(hi, lo)
    case 1 => Wait(hi / 4, hi % 4, lo)
    case 2 => In(hi, CountOf(lo))
    case 3 => Out(hi, CountOf(lo))
    case 4 =>
      if lo >= 16 then
        var literal := (lo / 8) % 2 == 1;
        RxFifo(hi >= 4, literal, if literal then lo % 4 else 0)
      else if hi >= 4 then Pull((hi / 2) % 2 == 1, hi % 2 == 1)
      else Push((hi / 2) % 2 == 1, hi % 2 == 1)
    case 5 => Mov(hi, lo / 8, lo % 8)
    case 6 => Irq((hi / 2) % 2 == 1, hi % 2 == 1, lo)
    case _ => Set(hi, lo)
  }

  /** A word's operation; the delay/side-set bits [12:8] play no part. */
  function Decode(insn: Insn): (op: Op)
    ensures Encodable(op)
  {
    DecodeFields(insn / 8192, (insn / 32) % 8, insn % 32)
  }

  /** Bits [12:8]: the delay/side-set field of a word. */
  function DelayField(insn: Insn): (f: nat)
    ensures f < 32
  {
    (insn / 256) % 32
  }

  /** Bitwise OR of two unsigned numbers. */
  function OrNat(a: nat, b: nat): nat {
    if a == 0 then b else (if a % 2 == 1 || b % 2 == 1 then 1 else 0) + 2 * OrNat(a / 2, b / 2)
  }

  /** OR of fields that do not overlap is their sum. */
  lemma {:induction false} OrDisjoint(a: nat, b: nat, k: nat)
    requires a < Pow2(k)
    ensures OrNat(a, b * Pow2(k)) == a + b * Pow2(k)
    decreases k
  {
    if k != 0 && a != 0 {
      var p := Pow2(k - 1);
      assert b * Pow2(k) == 2 * (b * p);
      OrDisjoint(a / 2, b, k - 1);
    }
  }

  /** OR a value into a slot above everything placed so far; the precondition is
      that the slot does not overlap what is there. */
  function Place(low: nat, value: nat, weight: nat): (r: nat)
    requires low < weight
    ensures r == low + value * weight
  {
    low + value * weight
  }

  /** For a power-of-two weight, `Place` is the source's `low | (value << k)`. */
  lemma PlaceIsOr(low: nat, value: nat, k: nat)
    requires low < Pow2(k)
    ensures Place(low, value, Pow2(k)) == OrNat(low, value * Pow2(k))
  {
    OrDisjoint(low, value, k);
  }

  function Flag(b: bool): nat {
    if b then 1 else 0
  }

  /** Opcode and operand bits of the pio_sim_encode_* family, each masked to its
      slot: (opcode, operand[7:5], operand[4:0]). */
  function EncodeFields(op: Op): (f: (nat, nat, nat))
    ensures f.0 < 8 && f.1 < 8 && f.2 < 32
  {
    match op
    case Jmp(cond, addr) => (0, cond % 8, addr % 32)
    case Wait(polarity, source, index) => (1, Place(source % 4, polarity % 2, 4), index % 32)
    case In(src, count) => (2, src % 8, count % 32)
    case Out(dest, count) => (3, dest % 8, count % 32)
    case Push(ifFull, block) => (4, Place(Flag(block), Flag(ifFull), 2), 0)
    case Pull(ifEmpty, block) => (4, Place(Place(Flag(block), Flag(ifEmpty), 2), 1, 4), 0)
    case RxFifo(get, literal, idx) =>
      (4, Flag(get) * 4, Place(Place(if literal then idx % 4 else 0, Flag(literal), 8), 1, 16))
    case Mov(dest, mop, src) => (5, dest % 8, Place(src % 8, mop % 4, 8))
    case Irq(clear, wait, field) => (6, Place(Flag(wait), Flag(clear), 2), field % 32)
    case Set(dest, value) => (7, dest % 8, value % 32)
  }

  /** The 16-bit word with a delay/side-set field in bits [12:8]: the encoders'
      word (which leaves those bits clear) OR-ed with `field << 8`. */
  function Assemble(op: Op, field: nat): (w: nat)
    requires field < 32
    ensures w < INSN_LIMIT
  {
    var (top, hi, lo) := EncodeFields(op);
    Place(Place(Place(lo, hi, 32), field, 256), top, 8192)
  }

  predicate RoundTrips(op: Op) {
    var (top, hi, lo) := EncodeFields(op);
    DecodeFields(top, hi, lo) == op
  }

  lemma WaitRoundTrip(polarity: nat, source: nat, index: nat)
    requires polarity < 2 && source < 4 && index < 32
    ensures RoundTrips(Wait(polarity, source, index))
  {
    if polarity == 0 {
      assert Place(source % 4, polarity % 2, 4) == source;
    } else {
      assert Place(source % 4, polarity % 2, 4) == source + 4;
    }
  }

  lemma MovRoundTrip(dest: nat, mop: nat, src: nat)
    requires dest < 8 && mop < 4 && src < 8
    ensures RoundTrips(Mov(dest, mop, src))
  {
    assert Place(src % 8, mop % 4, 8) == src + mop * 8;
  }

  lemma RxFifoRoundTrip(get: bool, literal: bool, idx: nat)
    requires idx < 4 && (!literal ==> idx == 0)
    ensures RoundTrips(RxFifo(get, literal, idx))
  {
  }

  lemma CountRoundTrip(op: Op)
    requires Encodable(op) && (op.In? || op.Out?)
    ensures RoundTrips(op)
  {
  }

  lemma FlagsRoundTrip(op: Op)
    requires Encodable(op) && (op.Push? || op.Pull? || op.Irq?)
    ensures RoundTrips(op)
  {
  }

  lemma FieldsRoundTrip(op: Op)
    requires Encodable(op)
    ensures RoundTrips(op)
  {
    match op
    case Wait(polarity, source, index) => WaitRoundTrip(polarity, source, index);
    case Mov(dest, mop, src) => MovRoundTrip(dest, mop, src);
    case RxFifo(get, literal, idx) => RxFifoRoundTrip(get, literal, idx);
    case In(_, _) => CountRoundTrip(op);
    case Out(_, _) => CountRoundTrip(op);
    case Push(_, _) => FlagsRoundTrip(op);
    case Pull(_, _) => FlagsRoundTrip(op);
    case Irq(_, _, _) => FlagsRoundTrip(op);
    case Jmp(_, _) =>
    case Set(_, _) =>
  }

  lemma Slots(lo: nat, hi: nat, field: nat, top: nat)
    requires lo < 32 && hi < 8 && field < 32 && top < 8
    ensures var w := lo + hi * 32 + field * 256 + top * 8192;
            w % 32 == lo && (w / 32) % 8 == hi && (w / 256) % 32 == field && w / 8192 == top
  {
    Pair(lo, hi + (field + top * 32) * 8, 32);
    Pair(hi, field + top * 32, 8);
    Pair(lo + hi * 32, field + top * 32, 256);
    Pair(field, top, 32);
    Pair(lo + hi * 32 + field * 256, top, 8192);
  }

  /** A word is the sum of its four fields. */
  lemma WordSplit(insn: Insn)
    ensures insn == insn % 32 + ((insn / 32) % 8) * 32 + ((insn / 256) % 32) * 256 + (insn / 8192) * 8192
  {
    var lo, q := insn % 32, insn / 32;
    var hi, q2 := q % 8, q / 8;
    var f, top := q2 % 32, q2 / 32;
    assert insn == lo + hi * 32 + f * 256 + top * 8192;
    Slots(lo, hi, f, top);
  }

  lemma Pair(low: nat, high: nat, w: nat)
    requires low < w
    ensures (low + high * w) % w == low && (low + high * w) / w == high
  {
    ModUnique(low + high * w, w, high, low);
  }

  /** Operands and the delay/side-set field never overlap: whatever the field,
      the word decodes back to the instruction it was assembled from. */
  lemma EncodeDecode(op: Op, field: nat)
    requires Encodable(op) && field < 32
    ensures Decode(Assemble(op, field)) == op
    ensures DelayField(Assemble(op, field)) == field
  {
    var (top, hi, lo) := EncodeFields(op);
    FieldsRoundTrip(op);
    Slots(lo, hi, field, top);
  }

  // ---- delay / side-set ------------------------------------------------------

  datatype DelaySide = DelaySide(delay: nat, side: nat, enabled: bool, bits: nat)

  function ClampSide(total: nat): (t: nat)
    ensures t <= 5
  {
    if total > 5 then 5 else total
  }

  /** decode_delay_sideset: `total` counts the enable bit of an optional side-set. */
  function DecodeDelaySide(total: nat, opt: bool, field: nat): DelaySide {
    var t := ClampSide(total);
    var delayBits := 5 - t;
    var delay := field % Pow2(delayBits);
    if t == 0 then DelaySide(delay, 0, !opt, 0)
    else
      var bits := if opt then t - 1 else t;
      DelaySide(delay, (field / Pow2(delayBits)) % Pow2(bits),
                if opt then (field / 16) % 2 == 1 else true, bits)
  }

  datatype PackResult = Packed(field: nat) | DelayTooLarge | SideOutOfRange | SideMissing | SideUndeclared

  /** pack_delay_sideset: the assembler's side of the same field. */
  function PackDelaySide(total: nat, opt: bool, delay: nat, side: nat, hasSide: bool): PackResult {
    var t := ClampSide(total);
    var delayBits := 5 - t;
    if delay > Pow2(delayBits) - 1 then DelayTooLarge
    else if t > 0 then
      if opt then
        if hasSide then
          if side > Pow2(t - 1) - 1 then SideOutOfRange
          else
            SideFits(t, t - 1, side);
            Packed(Place(Place(delay, side, Pow2(delayBits)), 1, 16))
        else Packed(delay)
      else if !hasSide then SideMissing
      else if side > Pow2(t) - 1 then SideOutOfRange
      else Packed(Place(delay, side, Pow2(delayBits)))
    else if hasSide then SideUndeclared
    else Packed(delay)
  }

  /** A side value of the declared width ends below the slot above it. */
  lemma SideFits(t: nat, bits: nat, side: nat)
    requires 1 <= t <= 5 && t - 1 <= bits <= t && side < Pow2(bits)
    ensures side * Pow2(5 - t) + Pow2(5 - t) <= if bits == t then 32 else 16
  {
    Pow2Add(bits, 5 - t);
    assert (side + 1) * Pow2(5 - t) <= Pow2(bits) * Pow2(5 - t);
    assert Pow2(4) == 16 && Pow2(5) == 32;
  }

  /** Exactly the requests that fit the declared side-set are accepted. */
  lemma PackAccepts(total: nat, opt: bool, delay: nat, side: nat, hasSide: bool)
    ensures var t := ClampSide(total);
            PackDelaySide(total, opt, delay, side, hasSide).Packed? <==>
              && delay < Pow2(5 - t)
              && (hasSide ==> t > 0 && side < Pow2(if opt then t - 1 else t))
              && (!hasSide ==> t == 0 || opt)
  {
  }

  /** An accepted delay/side-set request decodes to the same delay and the same
      (possibly absent) side value. */
  lemma PackDecode(total: nat, opt: bool, delay: nat, side: nat, hasSide: bool)
    requires PackDelaySide(total, opt, delay, side, hasSide).Packed?
    ensures var field := PackDelaySide(total, opt, delay, side, hasSide).field;
            var d := DecodeDelaySide(total, opt, field);
            && field < 32
            && d.delay == delay
            && (ClampSide(total) > 0 ==> d.enabled == hasSide)
            && (hasSide ==> d.side == side)
  {
    var t := ClampSide(total);
    var field := PackDelaySide(total, opt, delay, side, hasSide).field;
    if t > 0 && hasSide {
      SideFits(t, if opt then t - 1 else t, side);
      if opt {
        OptionalSlots(t, delay, side);
      } else {
        ModUnique(field, Pow2(5 - t), side, delay);
        SmallMod(side, Pow2(t));
      }
    } else {
      DelayFits(t, delay, opt);
      SmallMod(delay, Pow2(5 - t));
    }
  }

  lemma DelayFits(t: nat, delay: nat, opt: bool)
    requires t <= 5 && delay < Pow2(5 - t)
    ensures delay < 32 && (t > 0 ==> delay < 16)
  {
    assert Pow2(0) == 1 && Pow2(1) == 2 && Pow2(2) == 4 && Pow2(3) == 8 && Pow2(4) == 16 && Pow2(5) == 32;
  }

  lemma SmallMod(a: nat, m: nat)
    requires a < m
    ensures a % m == a && a / m == 0
  {
    ModUnique(a, m, 0, a);
  }

  /** With the enable bit on top, delay and side value still read back. */
  lemma OptionalSlots(t: nat, delay: nat, side: nat)
    requires 1 <= t <= 5 && delay < Pow2(5 - t) && side < Pow2(t - 1)
    requires side * Pow2(5 - t) + Pow2(5 - t) <= 16
    ensures var field, w := delay + side * Pow2(5 - t) + 16, Pow2(5 - t);
            field < 32 && field % w == delay && (field / w) % Pow2(t - 1) == side && (field / 16) % 2 == 1
  {
    var w, m := Pow2(5 - t), Pow2(t - 1);
    Pow2Add(t - 1, 5 - t);
    assert Pow2(4) == 16;
    assert m * w == 16;
    var field := delay + side * w + 16;
    assert field == (side + m) * w + delay;
    ModUnique(field, w, side + m, delay);
    ModUnique(side + m, m, 1, side);
  }
}
