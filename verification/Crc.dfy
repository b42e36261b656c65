/** The DMA sniffer's CRC updates: the reflected form is the bit-reversal
    conjugate of the MSB-first form, and the element size does not matter. */
module Crc {
  import opened Bits

  type Byte = b: seq<bool> | |b| == 8 witness Zeros(8)

  // ---- width-generic shift registers -------------------------------------------

  /** One MSB-first division step of an n-bit register. */
  function MsbStep(x: seq<bool>, poly: seq<bool>): (r: seq<bool>)
    requires |x| == |poly| > 0
    ensures |r| == |x|
  {
    var y := [false] + x[..|x| - 1];
    if x[|x| - 1] then Xor(y, poly) else y
  }

  /** One reflected (LSB-first) division step. */
  function LsbStep(x: seq<bool>, poly: seq<bool>): (r: seq<bool>)
    requires |x| == |poly| > 0
    ensures |r| == |x|
  {
    var y := x[1..] + [false];
    if x[0] then Xor(y, poly) else y
  }

  function MsbSteps(x: seq<bool>, poly: seq<bool>, n: nat): (r: seq<bool>)
    requires |x| == |poly| > 0
    ensures |r| == |x|
  {
    if n == 0 then x else MsbStep(MsbSteps(x, poly, n - 1), poly)
  }

  function LsbSteps(x: seq<bool>, poly: seq<bool>, n: nat): (r: seq<bool>)
    requires |x| == |poly| > 0
    ensures |r| == |x|
  {
    if n == 0 then x else LsbStep(LsbSteps(x, poly, n - 1), poly)
  }

  lemma StepConjugate(x: seq<bool>, poly: seq<bool>)
    requires |x| == |poly| > 0
    ensures LsbStep(Reverse(x), Reverse(poly)) == Reverse(MsbStep(x, poly))
  {
    var y := [false] + x[..|x| - 1];
    assert Reverse(y) == Reverse(x)[1..] + [false];
    assert Xor(Reverse(y), Reverse(poly)) == Reverse(Xor(y, poly));
  }

  lemma {:induction false} StepsConjugate(x: seq<bool>, poly: seq<bool>, n: nat)
    requires |x| == |poly| > 0
    ensures LsbSteps(Reverse(x), Reverse(poly), n) == Reverse(MsbSteps(x, poly, n))
  {
    if n > 0 {
      StepsConjugate(x, poly, n - 1);
      StepConjugate(MsbSteps(x, poly, n - 1), poly);
    }
  }

  /** Feed a byte at the top of the register, then eight MSB-first steps. */
  function MsbByte(x: seq<bool>, byte: Byte, poly: seq<bool>): (r: seq<bool>)
    requires |x| == |poly| >= 8
    ensures |r| == |x|
  {
    MsbSteps(Xor(x, Zeros(|x| - 8) + byte), poly, 8)
  }

  /** Feed a byte at the bottom of the register, then eight reflected steps. */
  function LsbByte(x: seq<bool>, byte: Byte, poly: seq<bool>): (r: seq<bool>)
    requires |x| == |poly| >= 8
    ensures |r| == |x|
  {
    LsbSteps(Xor(x, byte + Zeros(|x| - 8)), poly, 8)
  }

  /** The reflected byte update is the bit-reversal conjugate of the MSB-first
      one: reverse register, byte and polynomial, and the results are reversed. */
  lemma ReflectedIsConjugate(x: seq<bool>, byte: Byte, poly: seq<bool>)
    requires |x| == |poly| >= 8
    ensures LsbByte(Reverse(x), Reverse(byte), Reverse(poly)) == Reverse(MsbByte(x, byte, poly))
  {
    var fed := Xor(x, Zeros(|x| - 8) + byte);
    assert Xor(Reverse(x), Reverse(byte) + Zeros(|x| - 8)) == Reverse(fed);
    StepsConjugate(fed, poly, 8);
  }

  // ---- the source's 32-bit code ---------------------------------------------------

  /** crc_update_msb's loop: `top` is bit `width - 1` of a 32-bit variable. */
  function MsbLoop(crc: Word, poly: Word, width: nat, n: nat): Word
    requires 8 <= width <= 32
  {
    if n == 0 then crc
    else
      var c := MsbLoop(crc, poly, width, n - 1);
      if c[width - 1] then Xor(Shl(c, 1), poly) else Shl(c, 1)
  }

  /** crc_update_msb. */
  function UpdateMsb(crc: Word, byte: Byte, poly: Word, width: nat): Word
    requires 8 <= width <= 32
  {
    Low(MsbLoop(Xor(crc, Shl(byte + Zeros(24), width - 8)), poly, width, 8), width)
  }

  function LsbLoop(crc: Word, poly: Word, n: nat): Word {
    if n == 0 then crc
    else
      var c := LsbLoop(crc, poly, n - 1);
      if c[0] then Xor(Shr(c, 1), poly) else Shr(c, 1)
  }

  /** crc_update_lsb. */
  function UpdateLsb(crc: Word, byte: Byte, poly: Word): Word {
    LsbLoop(Xor(crc, byte + Zeros(24)), poly, 8)
  }

  /** The loop the source runs, with its running variable. */
  method UpdateMsbLoop(crc: Word, byte: Byte, poly: Word, width: nat) returns (r: Word)
    requires 8 <= width <= 32
    ensures r == UpdateMsb(crc, byte, poly, width)
  {
    var c: Word := Xor(crc, Shl(byte + Zeros(24), width - 8));
    ghost var fed := c;
    for b := 0 to 8
      invariant c == MsbLoop(fed, poly, width, b)
    {
      c := if c[width - 1] then Xor(Shl(c, 1), poly) else Shl(c, 1);
    }
    r := Low(c, width);
  }

  method UpdateLsbLoop(crc: Word, byte: Byte, poly: Word) returns (r: Word)
    ensures r == UpdateLsb(crc, byte, poly)
  {
    var c: Word := Xor(crc, byte + Zeros(24));
    ghost var fed := c;
    for b := 0 to 8
      invariant c == LsbLoop(fed, poly, b)
    {
      c := if c[0] then Xor(Shr(c, 1), poly) else Shr(c, 1);
    }
    r := c;
  }

  /** The low `width` bits of the 32-bit loop are the width-bit register. */
  lemma {:induction false} MsbLoopLow(crc: Word, poly: Word, width: nat, n: nat)
    requires 8 <= width <= 32
    ensures MsbLoop(crc, poly, width, n)[..width] == MsbSteps(crc[..width], poly[..width], n)
  {
    hide Shl, Xor, MsbStep;
    if n > 0 {
      MsbLoopLow(crc, poly, width, n - 1);
      MsbStepLow(MsbLoop(crc, poly, width, n - 1), poly, width);
    }
  }

  lemma MsbStepLow(c: Word, poly: Word, width: nat)
    requires 8 <= width <= 32
    ensures (if c[width - 1] then Xor(Shl(c, 1), poly) else Shl(c, 1))[..width] == MsbStep(c[..width], poly[..width])
  {
    hide Shl, Xor;
    ShlLow(c, width);
    XorLow(Shl(c, 1), poly, width);
  }

  lemma ShlLow(c: Word, width: nat)
    requires 1 <= width <= 32
    ensures Shl(c, 1)[..width] == [false] + c[..width][..width - 1]
  {
    hide Xor;
    var a, b := Shl(c, 1)[..width], [false] + c[..width][..width - 1];
    assert forall i :: 0 <= i < width ==> a[i] == b[i];
  }

  lemma XorLow(a: Word, b: Word, width: nat)
    requires width <= 32
    ensures Xor(a, b)[..width] == Xor(a[..width], b[..width])
  {
    var x, y := Xor(a, b)[..width], Xor(a[..width], b[..width]);
    assert forall i :: 0 <= i < width ==> x[i] == y[i];
  }

  /** The MSB-first update computes the width-bit CRC step on its low bits. */
  lemma UpdateMsbIsMsbByte(crc: Word, byte: Byte, poly: Word, width: nat)
    requires 8 <= width <= 32
    ensures UpdateMsb(crc, byte, poly, width) == MsbByte(crc[..width], byte, poly[..width]) + Zeros(32 - width)
  {
    var fed: Word := Xor(crc, Shl(byte + Zeros(24), width - 8));
    assert Shl(byte + Zeros(24), width - 8)[..width] == Zeros(width - 8) + byte;
    assert fed[..width] == Xor(crc[..width], Zeros(width - 8) + byte);
    MsbLoopLow(fed, poly, width, 8);
  }

  /** A reflected register whose high bits are clear keeps them clear. */
  lemma {:induction false} LsbLoopLow(crc: Word, poly: Word, width: nat, n: nat)
    requires 8 <= width <= 32 && crc[width..] == Zeros(32 - width) && poly[width..] == Zeros(32 - width)
    ensures LsbLoop(crc, poly, n) == LsbSteps(crc[..width], poly[..width], n) + Zeros(32 - width)
  {
    if n > 0 {
      LsbLoopLow(crc, poly, width, n - 1);
      LsbStepLow(LsbLoop(crc, poly, n - 1), poly, width);
    } else {
      assert crc == crc[..width] + crc[width..];
    }
  }

  lemma LsbStepLow(c: Word, poly: Word, width: nat)
    requires 8 <= width <= 32 && c[width..] == Zeros(32 - width) && poly[width..] == Zeros(32 - width)
    ensures (if c[0] then Xor(Shr(c, 1), poly) else Shr(c, 1)) == LsbStep(c[..width], poly[..width]) + Zeros(32 - width)
  {
    var x := c[..width];
    assert c == x + Zeros(32 - width) && poly == poly[..width] + Zeros(32 - width);
    assert Shr(c, 1) == (x[1..] + [false]) + Zeros(32 - width);
    if c[0] {
      assert Xor(Shr(c, 1), poly) == Xor(x[1..] + [false], poly[..width]) + Zeros(32 - width);
    }
  }

  lemma UpdateLsbIsLsbByte(crc: Word, byte: Byte, poly: Word, width: nat)
    requires 8 <= width <= 32 && crc[width..] == Zeros(32 - width) && poly[width..] == Zeros(32 - width)
    ensures UpdateLsb(crc, byte, poly) == LsbByte(crc[..width], byte, poly[..width]) + Zeros(32 - width)
  {
    var fed: Word := Xor(crc, byte + Zeros(24));
    assert fed[..width] == Xor(crc[..width], byte + Zeros(width - 8));
    assert fed[width..] == Zeros(32 - width);
    LsbLoopLow(fed, poly, width, 8);
  }

  // ---- the four polynomials --------------------------------------------------------

  type Nibble = b: seq<bool> | |b| == 4 witness Zeros(4)

  /** A hexadecimal digit, least significant bit first. */
  function Hex(n: nat): Nibble
    requires n < 16
  {
    [n % 2 == 1, (n / 2) % 2 == 1, (n / 4) % 2 == 1, n / 8 == 1]
  }

  /** Four hexadecimal digits, most significant first as written. */
  function Hex4(a: nat, b: nat, c: nat, d: nat): (s: seq<bool>)
    requires a < 16 && b < 16 && c < 16 && d < 16
    ensures |s| == 16
  {
    (Hex(d) + Hex(c)) + (Hex(b) + Hex(a))
  }

  const CRC32_POLY: Word := Hex4(0x1, 0xD, 0xB, 0x7) + Hex4(0x0, 0x4, 0xC, 0x1)   // 0x04C11DB7
  const CRC32R_POLY: Word := Hex4(0x8, 0x3, 0x2, 0x0) + Hex4(0xE, 0xD, 0xB, 0x8)  // 0xEDB88320
  const CRC16_POLY: Word := Hex4(0x1, 0x0, 0x2, 0x1) + Zeros(16)                  // 0x1021
  const CRC16R_POLY: Word := Hex4(0x8, 0x4, 0x0, 0x8) + Zeros(16)                 // 0x8408

  /** A digit's bits in the opposite order, as a digit. */
  predicate Mirrors(a: nat, b: nat)
    requires a < 16 && b < 16
  {
    Reverse(Hex(a)) == Hex(b)
  }

  lemma MirrorHex4(a: nat, b: nat, c: nat, d: nat, a': nat, b': nat, c': nat, d': nat)
    requires a < 16 && b < 16 && c < 16 && d < 16 && a' < 16 && b' < 16 && c' < 16 && d' < 16
    requires Mirrors(a, d') && Mirrors(b, c') && Mirrors(c, b') && Mirrors(d, a')
    ensures Reverse(Hex4(a, b, c, d)) == Hex4(a', b', c', d')
  {
    hide Hex;
    ReverseConcat(Hex(d) + Hex(c), Hex(b) + Hex(a));
    ReverseConcat(Hex(d), Hex(c));
    ReverseConcat(Hex(b), Hex(a));
  }

  /** The reflected polynomials are the plain ones bit-reversed. */
  lemma PolynomialsReflect()
    ensures CRC32R_POLY == Reverse(CRC32_POLY)
    ensures CRC16R_POLY[..16] == Reverse(CRC16_POLY[..16])
    ensures CRC16_POLY[16..] == Zeros(16) && CRC16R_POLY[16..] == Zeros(16)
  {
    hide Hex4;
    MirrorHex4(0x1, 0xD, 0xB, 0x7, 0xE, 0xD, 0xB, 0x8);
    MirrorHex4(0x0, 0x4, 0xC, 0x1, 0x8, 0x3, 0x2, 0x0);
    MirrorHex4(0x1, 0x0, 0x2, 0x1, 0x8, 0x4, 0x0, 0x8);
    ReverseConcat(Hex4(0x1, 0xD, 0xB, 0x7), Hex4(0x0, 0x4, 0xC, 0x1));
  }

  /** CRC-32 (IEEE 802.3 polynomial): SNIFF_CRC32R is SNIFF_CRC32 seen through a
      mirror, for every register and data byte. */
  lemma Crc32Conjugate(crc: Word, byte: Byte)
    ensures UpdateLsb(Reverse(crc), Reverse(byte), CRC32R_POLY) == Reverse(UpdateMsb(crc, byte, CRC32_POLY, 32))
  {
    hide UpdateMsb, UpdateLsb, MsbByte, LsbByte;
    var r := Reverse(crc);
    UpdateMsbIsMsbByte(crc, byte, CRC32_POLY, 32);
    UpdateLsbIsLsbByte(r, Reverse(byte), CRC32R_POLY, 32);
    assert crc[..32] == crc && r[..32] == r && CRC32_POLY[..32] == CRC32_POLY && CRC32R_POLY[..32] == CRC32R_POLY;
    PolynomialsReflect();
    ReflectedIsConjugate(crc, byte, CRC32_POLY);
  }

  /** CRC-16: the same on the low sixteen bits, which are all that count. */
  lemma Crc16Conjugate(crc: Word, byte: Byte)
    ensures var r: Word := Reverse(crc[..16]) + Zeros(16);
            UpdateLsb(r, Reverse(byte), CRC16R_POLY) == Reverse(UpdateMsb(crc, byte, CRC16_POLY, 16)[..16]) + Zeros(16)
  {
    hide UpdateMsb, UpdateLsb, MsbByte, LsbByte;
    var r: Word := Reverse(crc[..16]) + Zeros(16);
    PolynomialsReflect();
    UpdateMsbIsMsbByte(crc, byte, CRC16_POLY, 16);
    UpdateLsbIsLsbByte(r, Reverse(byte), CRC16R_POLY, 16);
    assert r[..16] == Reverse(crc[..16]);
    ReflectedIsConjugate(crc[..16], byte, CRC16_POLY[..16]);
  }

  // ---- sniffing elements ------------------------------------------------------------

  datatype Calc = Crc32 | Crc32R | Crc16 | Crc16R | Even | SumAll

  /** One byte through a CRC mode. */
  function SniffByte(mode: Calc, crc: Word, byte: Byte): Word {
    match mode
    case Crc32 => UpdateMsb(crc, byte, CRC32_POLY, 32)
    case Crc32R => UpdateLsb(crc, byte, CRC32R_POLY)
    case Crc16 => UpdateMsb(crc, byte, CRC16_POLY, 16)
    case Crc16R => UpdateLsb(Low(crc, 16), byte, CRC16R_POLY)
    case Even => crc
    case SumAll => crc
  }

  /** Byte `i` of a transferred element. */
  function ByteAt(v: Word, i: nat): Byte
    requires i < 4
  {
    v[8 * i..8 * i + 8]
  }

  function SniffBytes(mode: Calc, crc: Word, v: Word, n: nat): Word
    requires n <= 4
  {
    if n == 0 then crc else SniffByte(mode, SniffBytes(mode, crc, v, n - 1), ByteAt(v, n - 1))
  }

  /** dma_sniff of one element of `bytes` bytes. */
  function Sniff(mode: Calc, crc: Word, value: Word, bytes: nat): Word
    requires bytes <= 4
  {
    var v := Low(value, 8 * bytes);
    match mode
    case Even => Xor(crc, v)
    case SumAll => FromNat(ToNat(crc) + ToNat(v), 32)
    case _ => SniffBytes(mode, crc, v, bytes)
  }

  /** A little-endian element made of the given bytes. */
  function Element(bs: seq<Byte>): Word
    requires |bs| <= 4
  {
    Join(bs) + Zeros(32 - 8 * |bs|)
  }

  function Join(bs: seq<Byte>): (r: seq<bool>)
    ensures |r| == 8 * |bs|
  {
    if bs == [] then [] else Join(bs[..|bs| - 1]) + bs[|bs| - 1]
  }

  function FoldBytes(mode: Calc, crc: Word, bs: seq<Byte>): Word {
    if bs == [] then crc else SniffByte(mode, FoldBytes(mode, crc, bs[..|bs| - 1]), bs[|bs| - 1])
  }

  predicate IsCrc(mode: Calc) {
    mode != Even && mode != SumAll
  }

  lemma {:induction false} JoinSlice(bs: seq<Byte>, i: nat)
    requires i < |bs|
    ensures 8 * i + 8 <= 8 * |bs| && Join(bs)[8 * i..8 * i + 8] == bs[i]
  {
    var n := |bs| - 1;
    if i < n {
      JoinSlice(bs[..n], i);
      assert Join(bs)[8 * i..8 * i + 8] == Join(bs[..n])[8 * i..8 * i + 8];
    } else {
      assert Join(bs)[8 * n..8 * n + 8] == bs[n];
    }
  }

  lemma {:induction false} SniffBytesFold(mode: Calc, crc: Word, bs: seq<Byte>, n: nat)
    requires n <= |bs| <= 4
    ensures SniffBytes(mode, crc, Element(bs), n) == FoldBytes(mode, crc, bs[..n])
    decreases n
  {
    hide SniffByte;
    if n > 0 {
      SniffBytesFold(mode, crc, bs, n - 1);
      assert bs[..n][..n - 1] == bs[..n - 1];
      JoinSlice(bs, n - 1);
      assert ByteAt(Element(bs), n - 1) == bs[n - 1];
    }
  }

  /** Sniffing one element folds its bytes in memory order. */
  lemma SniffElement(mode: Calc, crc: Word, bs: seq<Byte>)
    requires IsCrc(mode) && |bs| <= 4
    ensures Sniff(mode, crc, Element(bs), |bs|) == FoldBytes(mode, crc, bs)
  {
    hide SniffBytes, FoldBytes;
    assert Low(Element(bs), 8 * |bs|) == Element(bs);
    assert bs[..|bs|] == bs;
    SniffBytesFold(mode, crc, bs, |bs|);
  }

  function SniffAll(mode: Calc, crc: Word, elems: seq<seq<Byte>>): Word
    requires forall i :: 0 <= i < |elems| ==> |elems[i]| <= 4
  {
    if elems == [] then crc
    else Sniff(mode, SniffAll(mode, crc, elems[..|elems| - 1]), Element(elems[|elems| - 1]), |elems[|elems| - 1]|)
  }

  function Flatten(elems: seq<seq<Byte>>): seq<Byte> {
    if elems == [] then [] else Flatten(elems[..|elems| - 1]) + elems[|elems| - 1]
  }

  lemma {:induction false} FoldAppend(mode: Calc, crc: Word, a: seq<Byte>, b: seq<Byte>)
    ensures FoldBytes(mode, crc, a + b) == FoldBytes(mode, FoldBytes(mode, crc, a), b)
  {
    hide SniffByte;
    if b == [] {
      assert a + b == a;
    } else {
      assert (a + b)[..|a + b| - 1] == a + b[..|b| - 1];
      FoldAppend(mode, crc, a, b[..|b| - 1]);
    }
  }

  /** In every CRC mode the accumulator depends only on the byte stream, not on
      how it was cut into 8-, 16- or 32-bit elements. */
  lemma {:induction false} ElementSizeIrrelevant(mode: Calc, crc: Word, elems: seq<seq<Byte>>)
    requires IsCrc(mode) && forall i :: 0 <= i < |elems| ==> |elems[i]| <= 4
    ensures SniffAll(mode, crc, elems) == FoldBytes(mode, crc, Flatten(elems))
  {
    hide FoldBytes, Sniff;
    if elems == [] {
      assert FoldBytes(mode, crc, []) == crc by { FoldNothing(mode, crc); }
    } else {
      var init, last := elems[..|elems| - 1], elems[|elems| - 1];
      ElementSizeIrrelevant(mode, crc, init);
      SniffElement(mode, SniffAll(mode, crc, init), last);
      FoldAppend(mode, crc, Flatten(init), last);
    }
  }

  lemma FoldNothing(mode: Calc, crc: Word)
    ensures FoldBytes(mode, crc, []) == crc
  {
  }
}
