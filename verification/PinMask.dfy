/** 64-bit pin masks, read one bit at a time. The bitwise operators have names so
    that proofs can reason about them by their laws alone. */
module PinMask {
  import opened Pads

  type Mask = bv64

  function And(a: Mask, b: Mask): Mask { a & b }
  function Or(a: Mask, b: Mask): Mask { a | b }
  function Xor(a: Mask, b: Mask): Mask { a ^ b }
  function Inv(a: Mask): Mask { !a }
  function Twice(a: Mask): Mask { a << 1 }
  function Half(a: Mask): Mask { a >> 1 }
  function Minus(a: Mask, b: Mask): Mask { And(a, Inv(b)) }

  // ---- laws on one selected bit: `p` picks nothing of a mask, or all of itself --------

  predicate Off(a: Mask, p: Mask) { And(a, p) == 0 }

  predicate On(a: Mask, p: Mask) { And(a, p) == p }

  lemma AndOff(a: Mask, b: Mask, p: Mask)
    requires Off(a, p)
    ensures Off(And(a, b), p) && Off(And(b, a), p)
  {
  }

  lemma AndOn(a: Mask, b: Mask, p: Mask)
    requires On(a, p) && On(b, p)
    ensures On(And(a, b), p)
  {
  }

  lemma OrOff(a: Mask, b: Mask, p: Mask)
    requires Off(a, p) && Off(b, p)
    ensures Off(Or(a, b), p)
  {
  }

  lemma OrOn(a: Mask, b: Mask, p: Mask)
    requires On(a, p)
    ensures On(Or(a, b), p) && On(Or(b, a), p)
  {
  }

  lemma XorSame(a: Mask, b: Mask, p: Mask)
    requires And(a, p) == And(b, p)
    ensures Off(Xor(a, b), p)
  {
  }

  lemma XorDiffer(a: Mask, b: Mask, p: Mask)
    requires On(a, p) && Off(b, p)
    ensures On(Xor(a, b), p) && On(Xor(b, a), p)
  {
  }

  lemma InvOff(a: Mask, p: Mask)
    requires On(a, p)
    ensures Off(Inv(a), p)
  {
  }

  lemma InvOn(a: Mask, p: Mask)
    requires Off(a, p)
    ensures On(Inv(a), p)
  {
  }

  lemma AndLaws(a: Mask, b: Mask)
    ensures And(a, b) == And(b, a) && And(a, a) == a && And(0, a) == 0
  {
  }

  lemma AndTwice(m: Mask, p: Mask)
    ensures And(m, Twice(p)) == Twice(And(Half(m), p))
  {
  }

  lemma TwiceLaws(p: Mask, q: Mask)
    ensures And(Twice(p), Twice(q)) == Twice(And(p, q)) && And(1, Twice(q)) == 0 && Twice(0) == 0
  {
  }

  // ---- one pin ---------------------------------------------------------------------

  /** `1 << i`. */
  function PinBit(i: nat): Mask
    decreases i
  {
    if i == 0 then 1 else Twice(PinBit(i - 1))
  }

  /** The C test `(m & bit) != 0`. */
  predicate Bit(m: Mask, i: nat) {
    And(m, PinBit(i)) != 0
  }

  lemma {:induction false} PinBitUp(i: nat, k: nat)
    requires PinBit(i) == 0
    ensures PinBit(i + k) == 0
    decreases k
  {
    hide And, Twice;
    if k > 0 {
      PinBitUp(i, k - 1);
      TwiceLaws(0, 0);
      assert PinBit(i + k) == Twice(PinBit(i + k - 1));
    }
  }

  /** Doubling `k` times. */
  function Doubled(p: Mask, k: nat): Mask
    decreases k
  {
    if k == 0 then p else Twice(Doubled(p, k - 1))
  }

  lemma {:induction false} PinBitAdds(i: nat, k: nat)
    ensures PinBit(i + k) == Doubled(PinBit(i), k)
    decreases k
  {
    hide Twice;
    if k > 0 {
      PinBitAdds(i, k - 1);
      assert PinBit(i + k) == Twice(PinBit(i + k - 1));
    }
  }

  lemma TwiceFour(p: Mask)
    ensures Doubled(p, 4) == p << 4
  {
    assert Doubled(p, 1) == Twice(p);
    assert Doubled(p, 2) == Twice(Twice(p));
    assert Doubled(p, 3) == Twice(Twice(Twice(p)));
    assert Doubled(p, 4) == Twice(Twice(Twice(Twice(p))));
    hide Doubled;
    ShiftFour(p);
  }

  lemma ShiftFour(p: Mask)
    ensures Twice(Twice(Twice(Twice(p)))) == p << 4
  {
  }

  lemma PinBitFour(i: nat)
    ensures PinBit(i + 4) == PinBit(i) << 4
  {
    hide PinBit, Doubled;
    PinBitAdds(i, 4);
    TwiceFour(PinBit(i));
  }

  lemma HalfTop()
    ensures PinBit(31) == 0x8000_0000
  {
    assert PinBit(3) == 8;
    hide PinBit;
    PinBitFour(3);
    PinBitFour(7);
    PinBitFour(11);
    PinBitFour(15);
    PinBitFour(19);
    PinBitFour(23);
    PinBitFour(27);
  }

  lemma TopBit()
    ensures PinBit(63) == 0x8000_0000_0000_0000
  {
    hide PinBit;
    HalfTop();
    PinBitFour(31);
    PinBitFour(35);
    PinBitFour(39);
    PinBitFour(43);
    PinBitFour(47);
    PinBitFour(51);
    PinBitFour(55);
    PinBitFour(59);
  }

  lemma NonZero(i: nat)
    requires i < 64
    ensures PinBit(i) != 0
  {
    hide PinBit;
    TopBit();
    if PinBit(i) == 0 { PinBitUp(i, 63 - i); }
  }

  /** A pin bit selects nothing or itself. */
  lemma {:induction false} OneBit(m: Mask, i: nat)
    ensures Off(m, PinBit(i)) || On(m, PinBit(i))
    decreases i
  {
    if i == 0 {
      assert m & 1 == 0 || m & 1 == 1;
    } else {
      OneBit(Half(m), i - 1);
      hide And, Twice, Half;
      AndTwice(m, PinBit(i - 1));
      TwiceLaws(0, 0);
    }
  }

  /** Different pins have different bits. */
  lemma {:induction false} Distinct(i: nat, j: nat)
    requires i < j
    ensures And(PinBit(i), PinBit(j)) == 0
    decreases i
  {
    hide And, Twice;
    TwiceLaws(if i == 0 then 0 else PinBit(i - 1), PinBit(j - 1));
    if i > 0 { Distinct(i - 1, j - 1); }
  }

  lemma BitAnd(a: Mask, b: Mask, i: nat)
    requires i < 64
    ensures Bit(And(a, b), i) <==> Bit(a, i) && Bit(b, i)
  {
    hide PinBit, And;
    var p := PinBit(i);
    NonZero(i);
    OneBit(a, i);
    OneBit(b, i);
    if Off(a, p) { AndOff(a, b, p); } else if Off(b, p) { AndOff(b, a, p); } else { AndOn(a, b, p); }
  }

  lemma BitOr(a: Mask, b: Mask, i: nat)
    requires i < 64
    ensures Bit(Or(a, b), i) <==> Bit(a, i) || Bit(b, i)
  {
    hide PinBit, And, Or;
    var p := PinBit(i);
    NonZero(i);
    OneBit(a, i);
    OneBit(b, i);
    if On(a, p) { OrOn(a, b, p); } else if On(b, p) { OrOn(b, a, p); } else { OrOff(a, b, p); }
  }

  lemma BitXor(a: Mask, b: Mask, i: nat)
    requires i < 64
    ensures Bit(Xor(a, b), i) <==> Bit(a, i) != Bit(b, i)
  {
    hide PinBit, And, Xor;
    var p := PinBit(i);
    NonZero(i);
    OneBit(a, i);
    OneBit(b, i);
    if On(a, p) == On(b, p) { XorSame(a, b, p); } else if On(a, p) { XorDiffer(a, b, p); } else { XorDiffer(b, a, p); }
  }

  lemma BitInv(a: Mask, i: nat)
    requires i < 64
    ensures Bit(Inv(a), i) <==> !Bit(a, i)
  {
    hide PinBit, And, Inv;
    var p := PinBit(i);
    NonZero(i);
    OneBit(a, i);
    if On(a, p) { InvOff(a, p); } else { InvOn(a, p); }
  }

  lemma BitMinus(a: Mask, b: Mask, i: nat)
    requires i < 64
    ensures Bit(Minus(a, b), i) <==> Bit(a, i) && !Bit(b, i)
  {
    hide Bit, And, Inv;
    BitAnd(a, Inv(b), i);
    BitInv(b, i);
  }

  lemma BitConst(i: nat)
    requires i < 64
    ensures !Bit(0, i) && Bit(Inv(0), i)
  {
    BitInv(0, i);
    AndLaws(PinBit(i), 0);
    hide And, Inv, PinBit;
  }

  lemma PinBitAt(pin: nat, i: nat)
    requires pin < 64 && i < 64
    ensures Bit(PinBit(pin), i) <==> i == pin
  {
    hide And, PinBit;
    NonZero(pin);
    AndLaws(PinBit(pin), PinBit(i));
    if i < pin { Distinct(i, pin); } else if pin < i { Distinct(pin, i); }
  }

  /** mask_set. */
  function SetBit(m: Mask, pin: nat, on: bool): Mask {
    if on then Or(m, PinBit(pin)) else Minus(m, PinBit(pin))
  }

  /** Setting one pin's bit changes that bit only. */
  lemma SetBitAt(m: Mask, pin: nat, on: bool, i: nat)
    requires pin < 64 && i < 64
    ensures Bit(SetBit(m, pin, on), i) <==> (if i == pin then on else Bit(m, i))
  {
    hide Bit, Or, Minus;
    PinBitAt(pin, i);
    BitOr(m, PinBit(pin), i);
    BitMinus(m, PinBit(pin), i);
  }

  // ---- masks as sets -----------------------------------------------------------------

  /** The pins whose bit is one. */
  function PinsOf(m: Mask): Pins {
    set i: nat | i < 64 && Bit(m, i)
  }
}
