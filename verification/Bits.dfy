/** Machine words. A `uint32_t` register is its 32 bits, least significant
    first; the C operators used on registers are defined bit by bit. */
module Bits {

  type Word = w: seq<bool> | |w| == 32 witness Zeros(32)

  function Pow2(n: nat): (p: nat)
    ensures p > 0
  {
    if n == 0 then 1 else 2 * Pow2(n - 1)
  }

  function Zeros(n: nat): (z: seq<bool>)
    ensures |z| == n
  {
    seq(n, _ => false)
  }

  function Ones(n: nat): (z: seq<bool>)
    ensures |z| == n
  {
    seq(n, _ => true)
  }

  const ZERO: Word := Zeros(32)
  const ONES: Word := Ones(32)

  /** `w >> n` on an unsigned 32-bit word. */
  function Shr(w: Word, n: nat): Word
    requires n <= 32
  {
    w[n..] + Zeros(n)
  }

  /** `w << n` on an unsigned 32-bit word. */
  function Shl(w: Word, n: nat): Word
    requires n <= 32
  {
    Zeros(n) + w[..32 - n]
  }

  /** `w & mask_n(n)`: the low `n` bits, the rest cleared. */
  function Low(w: Word, n: nat): Word
    requires n <= 32
  {
    w[..n] + Zeros(32 - n)
  }

  function Or(a: Word, b: Word): Word {
    seq(32, i requires 0 <= i < 32 => a[i] || b[i])
  }

  /** `^` on two registers of the same width. */
  function Xor(a: seq<bool>, b: seq<bool>): (r: seq<bool>)
    requires |a| == |b|
    ensures |r| == |a|
  {
    seq(|a|, i requires 0 <= i < |a| => a[i] != b[i])
  }

  function Not(a: Word): Word {
    seq(32, i requires 0 <= i < 32 => !a[i])
  }

  /** The same bits in the opposite order. */
  function Reverse(s: seq<bool>): (r: seq<bool>)
    ensures |r| == |s|
  {
    seq(|s|, i requires 0 <= i < |s| => s[|s| - 1 - i])
  }

  /** The unsigned number a bit string stands for. */
  function ToNat(s: seq<bool>): (n: nat)
    ensures n < Pow2(|s|)
  {
    if s == [] then 0 else (if s[0] then 1 else 0) + 2 * ToNat(s[1..])
  }

  /** The low `width` bits of a number. */
  function FromNat(n: nat, width: nat): (s: seq<bool>)
    ensures |s| == width
    decreases width
  {
    if width == 0 then [] else [n % 2 == 1] + FromNat(n / 2, width - 1)
  }

  /** `w - 1` with wrap-around: borrow through the low zero bits. */
  function Decrement(s: seq<bool>): (r: seq<bool>)
    ensures |r| == |s|
  {
    if s == [] then []
    else if s[0] then [false] + s[1..]
    else [true] + Decrement(s[1..])
  }

  /** The remainder is determined by any decomposition that is in range. */
  lemma ModUnique(n: int, d: int, q: int, r: int)
    requires d > 0 && n == q * d + r && 0 <= r < d
    ensures n / d == q && n % d == r
  {
    var q', r' := n / d, n % d;
    var k := q - q';
    assert k * d == r' - r;
    assert k >= 1 ==> k * d >= d;
    assert k <= -1 ==> k * d <= -d;
    assert k == 0;
  }

  lemma Distribute(k: nat, n: nat)
    ensures (1 + k) * n == n + k * n
  {
  }

  /** The bitwise borrow is C's unsigned decrement: it wraps from 0 to the top. */
  lemma {:induction false} DecrementIsMinusOne(s: seq<bool>)
    ensures ToNat(s) > 0 ==> ToNat(Decrement(s)) == ToNat(s) - 1
    ensures ToNat(s) == 0 ==> ToNat(Decrement(s)) == Pow2(|s|) - 1
  {
    if s != [] {
      var d := Decrement(s);
      if s[0] {
        assert d[1..] == s[1..];
      } else {
        assert d[1..] == Decrement(s[1..]);
        DecrementIsMinusOne(s[1..]);
      }
    }
  }

  lemma ReverseTwice(s: seq<bool>)
    ensures Reverse(Reverse(s)) == s
  {
  }

  lemma ReverseConcat(a: seq<bool>, b: seq<bool>)
    ensures Reverse(a + b) == Reverse(b) + Reverse(a)
  {
  }

  lemma Doubled(x: nat, y: nat)
    ensures (2 * x) * y == 2 * (x * y)
  {
  }

  lemma {:induction false} Pow2Add(a: nat, b: nat)
    ensures Pow2(a + b) == Pow2(a) * Pow2(b)
  {
    if a != 0 {
      Pow2Add(a - 1, b);
      Doubled(Pow2(a - 1), Pow2(b));
    }
  }
}

/** pio_reverse32 as the source writes it: five mask-and-swap stages. */
module ReverseWord {
  import opened Bits

  function Reverse32(v0: bv32): bv32 {
    var v1 := ((v0 & 0x5555_5555) << 1) | ((v0 >> 1) & 0x5555_5555);
    var v2 := ((v1 & 0x3333_3333) << 2) | ((v1 >> 2) & 0x3333_3333);
    var v3 := ((v2 & 0x0F0F_0F0F) << 4) | ((v2 >> 4) & 0x0F0F_0F0F);
    var v4 := ((v3 & 0x00FF_00FF) << 8) | ((v3 >> 8) & 0x00FF_00FF);
    (v4 << 16) | (v4 >> 16)
  }

  /** The low `n` bits of a machine integer, least significant first. */
  function LsbFirst(v: bv32, n: nat): (s: seq<bool>)
    ensures |s| == n
    decreases n
  {
    if n == 0 then [] else [v & 1 == 1] + LsbFirst(v >> 1, n - 1)
  }

  /** The high `n` bits of a machine integer, most significant first. */
  function MsbFirst(v: bv32, n: nat): (s: seq<bool>)
    ensures |s| == n
    decreases n
  {
    if n == 0 then [] else [v & 0x8000_0000 != 0] + MsbFirst(v << 1, n - 1)
  }

  /** Reversing twice gives the word back. */
  lemma Reverse32Involution(v: bv32)
    ensures Reverse32(Reverse32(v)) == v
  {
  }

  lemma ReverseStep(v: bv32)
    ensures Reverse32(v) << 1 == Reverse32(v >> 1)
    ensures (Reverse32(v) & 0x8000_0000 != 0) == (v & 1 == 1)
  {
  }

  /** The swap network is bit reversal: read from the top, the result shows the
      argument's bits read from the bottom. */
  lemma {:induction false} Reverse32IsReverse(v: bv32, n: nat)
    ensures MsbFirst(Reverse32(v), n) == LsbFirst(v, n)
    decreases n
  {
    if n != 0 {
      ReverseStep(v);
      Reverse32IsReverse(v >> 1, n - 1);
    }
  }

  // ---- machine integers as bit sequences -----------------------------------------------

  /** `0x8000_0000 >> i`. */
  function Down(i: nat): bv32
    decreases i
  {
    if i == 0 then 0x8000_0000 else Down(i - 1) >> 1
  }

  lemma DownNext(i: nat)
    ensures Down(i + 1) == Down(i) >> 1
  {
  }

  lemma FourTimes(p: bv32)
    ensures (((p >> 1) >> 1) >> 1) >> 1 == p >> 4
  {
  }

  lemma DownFour(i: nat)
    ensures Down(i + 4) == Down(i) >> 4
  {
    hide Down;
    DownNext(i);
    DownNext(i + 1);
    DownNext(i + 2);
    DownNext(i + 3);
    FourTimes(Down(i));
  }

  lemma Nibbles()
    ensures Down(0) == 0x8000_0000 && Down(4) == 0x0800_0000 && Down(8) == 0x0080_0000 && Down(12) == 0x0008_0000
    ensures Down(16) == 0x8000 && Down(20) == 0x0800 && Down(24) == 0x0080 && Down(28) == 0x0008
  {
    assert Down(0) == 0x8000_0000;
    hide Down;
    DownFour(0);
    DownFour(4);
    DownFour(8);
    DownFour(12);
    DownFour(16);
    DownFour(20);
    DownFour(24);
  }

  /** The one bit is the lowest only at the end. */
  lemma DownLowBit(i: nat)
    requires i <= 31
    ensures Down(i) & 1 == if i == 31 then 1 else 0
  {
    hide Down;
    Nibbles();
    var b := i - i % 4;
    DownNext(b);
    DownNext(b + 1);
    DownNext(b + 2);
  }

  /** The C test of one bit. */
  predicate Hit(v: bv32, m: bv32) { v & m != 0 }

  lemma RightShift(v: bv32, m: bv32)
    requires m & 1 == 0
    ensures Hit(v >> 1, m >> 1) <==> Hit(v, m)
  {
    AndOfHalves(v, m);
    EvenAnd(v, m);
    EvenHalf(v & m);
  }

  lemma AndOfHalves(v: bv32, m: bv32)
    ensures (v >> 1) & (m >> 1) == (v & m) >> 1
  {
  }

  lemma EvenAnd(v: bv32, m: bv32)
    requires m & 1 == 0
    ensures (v & m) & 1 == 0
  {
  }

  lemma EvenHalf(x: bv32)
    requires x & 1 == 0
    ensures x >> 1 != 0 <==> x != 0
  {
  }

  lemma LeftMiss(v: bv32, m: bv32)
    requires !Hit(v, m >> 1)
    ensures !Hit(v << 1, m)
  {
  }

  lemma LeftMissed(v: bv32, m: bv32)
    requires !Hit(v << 1, m)
    ensures !Hit(v, m >> 1)
  {
  }

  lemma LeftShift(v: bv32, m: bv32)
    ensures Hit(v << 1, m) <==> Hit(v, m >> 1)
  {
    hide Hit;
    if !Hit(v << 1, m) { LeftMissed(v, m); }
    if !Hit(v, m >> 1) { LeftMiss(v, m); }
  }

  lemma {:induction false} MsbFirstAt(v: bv32, n: nat, i: nat)
    requires i < n
    ensures MsbFirst(v, n)[i] == Hit(v, Down(i))
    decreases n
  {
    if i == 0 {
      assert Down(0) == 0x8000_0000;
    } else {
      hide MsbFirst, Down, Hit;
      MsbFirstAt(v << 1, n - 1, i - 1);
      MsbTail(v, n, i);
      DownNext(i - 1);
      LeftShift(v, Down(i - 1));
    }
  }

  lemma MsbTail(v: bv32, n: nat, i: nat)
    requires 0 < i < n
    ensures MsbFirst(v, n)[i] == MsbFirst(v << 1, n - 1)[i - 1]
  {
  }

  lemma LsbTail(v: bv32, n: nat, i: nat)
    requires i < n
    ensures LsbFirst(v, n)[i] == if i == 0 then v & 1 == 1 else LsbFirst(v >> 1, n - 1)[i - 1]
  {
  }

  lemma LowBit(v: bv32, m: bv32)
    requires m == 1
    ensures v & 1 == 1 <==> Hit(v, m)
  {
  }

  lemma {:induction false} LsbFirstAt(v: bv32, n: nat, i: nat)
    requires i < n <= 32
    ensures LsbFirst(v, n)[i] == Hit(v, Down(31 - i))
    decreases n
  {
    hide Down, LsbFirst, Hit;
    LsbTail(v, n, i);
    if i == 0 {
      LastIsOne();
      LowBit(v, Down(31));
    } else {
      LsbFirstAt(v >> 1, n - 1, i - 1);
      ShiftedHit(v, 31 - i);
    }
  }

  lemma ShiftedHit(v: bv32, j: nat)
    requires j < 31
    ensures Hit(v >> 1, Down(j + 1)) <==> Hit(v, Down(j))
  {
    hide Down, Hit;
    DownNext(j);
    DownLowBit(j);
    RightShift(v, Down(j));
  }

  lemma LastIsOne()
    ensures Down(31) == 1
  {
    hide Down;
    Nibbles();
    DownNext(28);
    DownNext(29);
    DownNext(30);
  }

  /** Reading from the top is reading from the bottom, reversed. */
  lemma MsbIsReversedLsb(v: bv32)
    ensures MsbFirst(v, 32) == Reverse(LsbFirst(v, 32))
  {
    hide Down, LsbFirst, MsbFirst, Hit;
    forall i | 0 <= i < 32
      ensures MsbFirst(v, 32)[i] == Reverse(LsbFirst(v, 32))[i]
    {
      MsbFirstAt(v, 32, i);
      LsbFirstAt(v, 32, 31 - i);
    }
  }

  /** The swap network on machine integers is the reversal of bit sequences. */
  lemma SwapNetworkReverses(v: bv32)
    ensures LsbFirst(Reverse32(v), 32) == Reverse(LsbFirst(v, 32))
  {
    hide Reverse32, LsbFirst, MsbFirst;
    Reverse32IsReverse(v, 32);
    MsbIsReversedLsb(Reverse32(v));
    ReverseTwice(LsbFirst(Reverse32(v), 32));
  }
}
