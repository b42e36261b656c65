/** The clk_sys clock tree and its time conversions, with 64-bit arithmetic. */
module ClockTree {
  import opened Bits

  const U64_LIMIT: nat := 0x1_0000_0000_0000_0000

  /** Reduction to uint64_t. */
  function U64(n: nat): (r: nat)
    ensures r < U64_LIMIT && (n < U64_LIMIT ==> r == n)
  {
    if n < U64_LIMIT then n else n % U64_LIMIT
  }

  lemma DivMod(a: nat, b: nat)
    requires b > 0
    ensures a == a / b * b + a % b && 0 <= a % b < b && a / b >= 0
  {
  }

  function Times(a: nat, b: nat): nat { a * b }

  function Quot(a: nat, b: nat): nat
    requires b > 0
  {
    DivMod(a, b);
    a / b
  }

  function Rem(a: nat, b: nat): nat
    requires b > 0
  {
    a % b
  }

  datatype Tree = Tree(
    xosc: nat, refdiv: nat, fbdiv: nat, postdiv1: nat, postdiv2: nat,
    divInt: nat, divFrac: nat, bypass: bool)

  datatype Verdict = Ok | XoscRange | DivRange | RefdivRange | FbdivRange | VcoRange | PostdivRange

  const FRAC: nat := 65536
  const VCO_MIN: nat := 400_000_000
  const VCO_MAX: nat := 1_600_000_000

  function Vco(t: Tree): nat {
    if t.refdiv == 0 then 0 else U64(Times(Quot(t.xosc, t.refdiv), t.fbdiv))
  }

  /** pio_clk_validate. */
  function Validate(t: Tree): Verdict {
    if t.xosc < 1_000_000 || t.xosc > 15_000_000 then XoscRange
    else if t.divInt == 0 || t.divInt > 0xFFFF || t.divFrac >= FRAC then DivRange
    else if t.bypass then Ok
    else if t.refdiv < 1 || t.refdiv > 63 || Quot(t.xosc, t.refdiv) < 5_000_000 then RefdivRange
    else if t.fbdiv < 16 || t.fbdiv > 320 then FbdivRange
    else if Vco(t) < VCO_MIN || Vco(t) > VCO_MAX then VcoRange
    else if t.postdiv1 < 1 || t.postdiv1 > 7 || t.postdiv2 < 1 || t.postdiv2 > 7 then PostdivRange
    else Ok
  }

  /** What feeds the clk_sys divider. */
  function Source(t: Tree): nat
    requires Validate(t) == Ok
  {
    if t.bypass then t.xosc else Quot(Quot(Vco(t), t.postdiv1), t.postdiv2)
  }

  /** The 16.16 divider; the fraction occupies the bits the shift cleared. */
  function Divisor(t: Tree): (d: nat)
    ensures t.divInt > 0 ==> d > 0
  {
    t.divInt * FRAC + t.divFrac
  }

  /** The fractional divide, rounded. */
  function Divide(src: nat, den: nat): nat
    requires den > 0
  {
    Quot(U64(U64(src * FRAC) + den / 2), den)
  }

  /** pio_clk_sys_hz. */
  function SysHz(t: Tree): nat {
    if Validate(t) != Ok then 0
    else Divide(Source(t), Divisor(t))
  }

  // ---- declarative rounding -------------------------------------------------------------

  /** `r` is `a / b` rounded to nearest, ties up. */
  predicate Nearest(a: int, b: int, r: int) {
    -b <= 2 * (a - r * b) < b
  }

  /** `r` is `a / b` rounded up. */
  predicate Ceiling(a: int, b: int, r: int) {
    (r - 1) * b < a <= r * b
  }

  lemma MonotoneTimes(x: int, y: int, b: int)
    requires x <= y && b >= 0
    ensures x * b <= y * b
  {
  }

  lemma NearestUnique(a: int, b: int, r: int, s: int)
    requires b > 0 && Nearest(a, b, r) && Nearest(a, b, s)
    ensures r == s
  {
    if r < s { MonotoneTimes(r + 1, s, b); } else if s < r { MonotoneTimes(s + 1, r, b); }
  }

  lemma CeilingUnique(a: int, b: int, r: int, s: int)
    requires b > 0 && Ceiling(a, b, r) && Ceiling(a, b, s)
    ensures r == s
  {
    if r < s { MonotoneTimes(r, s - 1, b); } else if s < r { MonotoneTimes(s, r - 1, b); }
  }

  /** Adding half the divisor and flooring rounds to nearest. */
  lemma HalfUpIsNearest(a: nat, b: nat)
    requires b > 0
    ensures Nearest(a, b, (a + b / 2) / b)
  {
    DivMod(a + b / 2, b);
    DivMod(b, 2);
  }

  lemma CarryIsCeiling(a: nat, b: nat)
    requires b > 0
    ensures Ceiling(a, b, (a + b - 1) / b)
  {
    var q := (a + b - 1) / b;
    DivMod(a + b - 1, b);
    assert (q - 1) * b == q * b - b;
  }

  // ---- the frequency -----------------------------------------------------------------------

  lemma DivLess(a: nat, b: nat, m: nat)
    requires b >= 1 && a <= m
    ensures a / b <= m && a / b >= 0
  {
    DivMod(a, b);
    MonotoneTimes(1, b, a / b);
  }

  lemma DivAtLeast(a: nat, b: nat, q: nat)
    requires b >= 1 && q * b <= a
    ensures a / b >= q
  {
    DivMod(a, b);
    if a / b < q { MonotoneTimes(a / b + 1, q, b); }
  }

  lemma SourceBounds(t: Tree)
    requires Validate(t) == Ok
    ensures 1_000_000 <= Source(t) <= VCO_MAX
  {
    if !t.bypass {
      var v := Vco(t);
      var x := v / t.postdiv1;
      DivLess(v, t.postdiv1, VCO_MAX);
      MonotoneTimes(t.postdiv1, 7, 8_000_000);
      DivAtLeast(v, t.postdiv1, 8_000_000);
      DivLess(x, t.postdiv2, VCO_MAX);
      MonotoneTimes(t.postdiv2, 7, 1_000_000);
      DivAtLeast(x, t.postdiv2, 1_000_000);
    }
  }

  /** No intermediate of a valid tree overflows 64 bits. */
  lemma NoOverflow(t: Tree)
    requires Validate(t) == Ok
    ensures !t.bypass ==> t.xosc / t.refdiv * t.fbdiv < U64_LIMIT
    ensures FRAC <= Divisor(t) < FRAC * FRAC
    ensures Source(t) * FRAC + Divisor(t) / 2 < U64_LIMIT
  {
    SourceBounds(t);
    if !t.bypass {
      DivLess(t.xosc, t.refdiv, 15_000_000);
      MonotoneTimes(t.xosc / t.refdiv, 15_000_000, t.fbdiv);
    }
  }

  lemma DivideBounds(src: nat, den: nat)
    requires 1_000_000 <= src <= VCO_MAX && FRAC <= den < FRAC * FRAC
    ensures 1 <= Divide(src, den) <= VCO_MAX && Nearest(src * FRAC, den, Divide(src, den))
  {
    var num := src * FRAC;
    var hz := (num + den / 2) / den;
    HalfUpIsNearest(num, den);
    DivAtLeast(num + den / 2, den, 1);
    AtMostSource(src, den, hz);
  }

  lemma AtMostSource(src: nat, den: nat, hz: nat)
    requires den >= FRAC && Nearest(src * FRAC, den, hz)
    ensures hz <= src
  {
    if hz > src {
      MonotoneTimes(src + 1, hz, den);
      MonotoneTimes(FRAC, den, src);
    }
  }

  /** A valid tree runs at 1 Hz to 1.6 GHz, the source frequency over the divider
      rounded to nearest. */
  lemma SysHzBounds(t: Tree)
    requires Validate(t) == Ok
    ensures 1 <= SysHz(t) <= VCO_MAX
    ensures Nearest(Source(t) * FRAC, Divisor(t), SysHz(t))
  {
    NoOverflow(t);
    SourceBounds(t);
    hide Divide, Source, Divisor, Validate;
    DivideBounds(Source(t), Divisor(t));
  }

  lemma InvalidIsZero(t: Tree)
    ensures SysHz(t) == 0 <==> Validate(t) != Ok
  {
    if Validate(t) == Ok { SysHzBounds(t); }
  }

  // ---- conversions -----------------------------------------------------------------------------

  const NANO: nat := 1_000_000_000
  const MICRO: nat := 1_000_000

  /** muldiv_round. */
  function MuldivRound(ticks: nat, scale: nat, hz: nat): nat {
    if hz == 0 then 0
    else
      var whole := U64(Times(Quot(ticks, hz), scale));
      var rem := U64(Times(Rem(ticks, hz), scale));
      U64(whole + Quot(U64(rem + hz / 2), hz))
  }

  /** muldiv_ceil. */
  function MuldivCeil(time: nat, hz: nat, scale: nat): nat
    requires scale > 0
  {
    var whole := U64(Times(Quot(time, scale), hz));
    var rem := U64(Times(Rem(time, scale), hz));
    U64(whole + Quot(U64(rem + scale - 1), scale))
  }

  lemma WrapSum(x: nat, y: nat)
    ensures U64(U64(x) + y) == U64(x + y)
  {
    var q, r := x / U64_LIMIT, x % U64_LIMIT;
    DivMod(x, U64_LIMIT);
    DivMod(r + y, U64_LIMIT);
    var p := (r + y) / U64_LIMIT;
    ModUnique(x + y, U64_LIMIT, q + p, (r + y) % U64_LIMIT) by {
      assert (q + p) * U64_LIMIT == q * U64_LIMIT + p * U64_LIMIT;
    }
    ModSmall(x);
    ModSmall(r + y);
    ModSmall(x + y);
  }

  lemma ModSmall(n: nat)
    ensures U64(n) == n % U64_LIMIT
  {
    if n < U64_LIMIT { ModUnique(n, U64_LIMIT, 0, n); }
  }

  lemma ProductBelow(r: nat, m: nat, k: nat, n: nat)
    requires r < m && k <= n && n > 0
    ensures r * k < m * n
  {
    MonotoneTimes(r, m - 1, k);
    assert r * k <= (m - 1) * k;
    MonotoneTimes(k, n, m - 1);
    assert k * (m - 1) <= n * (m - 1);
    assert (m - 1) * n == m * n - n;
  }

  lemma RemainderFits(r: nat, m: nat, k: nat)
    requires (r < m <= VCO_MAX && k <= NANO) || (r < m <= NANO && k <= VCO_MAX)
    ensures r * k < 0x8000_0000_0000_0000
  {
    if m <= VCO_MAX && k <= NANO { ProductBelow(r, m, k, NANO); MonotoneTimes(m, VCO_MAX, NANO); }
    else { ProductBelow(r, m, k, VCO_MAX); MonotoneTimes(m, NANO, VCO_MAX); }
  }

  lemma Regroup(ticks: nat, w: nat, r: nat, hz: nat, scale: nat)
    requires ticks == w * hz + r
    ensures ticks * scale == w * scale * hz + r * scale
  {
    assert (w * hz) * scale == w * scale * hz;
  }

  /** The split form is the rounded quotient reduced to 64 bits, for every input:
      exact iff that quotient fits. */
  lemma RoundIsExact(ticks: nat, scale: nat, hz: nat, exact: nat)
    requires 1 <= hz <= VCO_MAX && scale <= NANO && Nearest(ticks * scale, hz, exact)
    ensures MuldivRound(ticks, scale, hz) == U64(exact)
    ensures MuldivRound(ticks, scale, hz) == exact <==> exact < U64_LIMIT
  {
    var w, r := Quot(ticks, hz), Rem(ticks, hz);
    DivMod(ticks, hz);
    hide U64;
    RoundParts(ticks, w, r, scale, hz, exact);
    hide Quot, Rem, Times;
  }

  lemma RoundParts(ticks: nat, w: nat, r: nat, scale: nat, hz: nat, exact: nat)
    requires 1 <= hz <= VCO_MAX && scale <= NANO && Nearest(ticks * scale, hz, exact) && ticks == w * hz + r && r < hz
    ensures U64(U64(Times(w, scale)) + Quot(U64(U64(Times(r, scale)) + hz / 2), hz)) == U64(exact)
  {
    hide U64;
    RemainderFits(r, hz, scale);
    var rem, x := Times(r, scale), Times(w, scale);
    assert U64(rem) == rem && U64(rem + hz / 2) == rem + hz / 2;
    var y := Quot(rem + hz / 2, hz);
    HalfUpIsNearest(rem, hz);
    Regroup(ticks, w, r, hz, scale);
    SumNearest(x, y, rem, hz, ticks * scale);
    NearestUnique(ticks * scale, hz, x + y, exact);
    WrapSum(x, y);
  }

  lemma SumNearest(x: nat, y: nat, rem: nat, hz: nat, total: nat)
    requires Nearest(rem, hz, y) && total == x * hz + rem
    ensures Nearest(total, hz, x + y)
  {
    assert (x + y) * hz == x * hz + y * hz;
  }

  /** Likewise for the ceiling form. */
  lemma CeilIsExact(time: nat, hz: nat, scale: nat, exact: nat)
    requires hz <= VCO_MAX && 1 <= scale <= NANO && Ceiling(time * hz, scale, exact)
    ensures MuldivCeil(time, hz, scale) == U64(exact)
    ensures MuldivCeil(time, hz, scale) == exact <==> exact < U64_LIMIT
  {
    var w, r := Quot(time, scale), Rem(time, scale);
    DivMod(time, scale);
    hide U64;
    CeilParts(time, w, r, hz, scale, exact);
    hide Quot, Rem, Times;
  }

  lemma CeilParts(time: nat, w: nat, r: nat, hz: nat, scale: nat, exact: nat)
    requires hz <= VCO_MAX && 1 <= scale <= NANO && Ceiling(time * hz, scale, exact) && time == w * scale + r && r < scale
    ensures U64(U64(Times(w, hz)) + Quot(U64(U64(Times(r, hz)) + scale - 1), scale)) == U64(exact)
  {
    hide U64;
    RemainderFits(r, scale, hz);
    var rem, x := Times(r, hz), Times(w, hz);
    assert U64(rem) == rem && U64(rem + scale - 1) == rem + scale - 1;
    var y := Quot(rem + scale - 1, scale);
    CarryIsCeiling(rem, scale);
    Regroup(time, w, r, scale, hz);
    SumCeiling(x, y, rem, scale, time * hz);
    CeilingUnique(time * hz, scale, x + y, exact);
    WrapSum(x, y);
  }

  lemma SumCeiling(x: nat, y: nat, rem: nat, scale: nat, total: nat)
    requires Ceiling(rem, scale, y) && total == x * scale + rem
    ensures Ceiling(total, scale, x + y)
  {
    assert (x + y) * scale == x * scale + y * scale;
    assert (x + y - 1) * scale == x * scale + (y - 1) * scale;
  }

  function TicksToNs(t: Tree, ticks: nat): nat { MuldivRound(ticks, NANO, SysHz(t)) }

  function TicksToUs(t: Tree, ticks: nat): nat { MuldivRound(ticks, MICRO, SysHz(t)) }

  function NsToTicks(t: Tree, ns: nat): nat { MuldivCeil(ns, SysHz(t), NANO) }

  function UsToTicks(t: Tree, us: nat): nat { MuldivCeil(us, SysHz(t), MICRO) }

  // ---- round trips ---------------------------------------------------------------------------------

  lemma CeilThenNearest(x: nat, hz: nat, scale: nat, c: nat, n: nat)
    requires hz > 0 && Ceiling(x * hz, scale, c) && Nearest(c * scale, hz, n)
    ensures n >= x
  {
    if n < x { MonotoneTimes(n + 1, x, hz); }
  }

  lemma OneMoreTime(c: int, scale: int)
    ensures (c + 1) * scale == c * scale + scale && (c - 1) * scale == c * scale - scale
  {
  }

  lemma NotBelow(t: nat, hz: nat, scale: nat, n: nat, c: nat)
    requires 0 < hz < 2 * scale && Nearest(t * scale, hz, n) && Ceiling(n * hz, scale, c)
    ensures t <= c
  {
    OneMoreTime(c, scale);
    if c < t { MonotoneTimes(c + 1, t, scale); }
  }

  lemma NotAbove(t: nat, hz: nat, scale: nat, n: nat, c: nat)
    requires 0 < hz < 2 * scale && Nearest(t * scale, hz, n) && Ceiling(n * hz, scale, c)
    ensures c <= t + 1
  {
    OneMoreTime(t, scale);
    if c > t + 1 { MonotoneTimes(t + 1, c - 1, scale); }
  }

  lemma NearestThenCeil(t: nat, hz: nat, scale: nat, n: nat, c: nat)
    requires 0 < hz < 2 * scale && Nearest(t * scale, hz, n) && Ceiling(n * hz, scale, c)
    ensures t <= c <= t + 1
  {
    hide Nearest, Ceiling;
    NotBelow(t, hz, scale, n, c);
    NotAbove(t, hz, scale, n, c);
  }

  /** Waiting the ticks a time converts to never waits less than that time, as long
      as both conversions fit 64 bits. */
  lemma NeverShort(t: Tree, ns: nat, ticks: nat, back: nat)
    requires Validate(t) == Ok
    requires Ceiling(ns * SysHz(t), NANO, ticks) && ticks < U64_LIMIT
    requires Nearest(ticks * NANO, SysHz(t), back) && back < U64_LIMIT
    ensures TicksToNs(t, NsToTicks(t, ns)) == back >= ns
  {
    hide SysHz, MuldivRound, MuldivCeil;
    SysHzBounds(t);
    CeilIsExact(ns, SysHz(t), NANO, ticks);
    RoundIsExact(ticks, NANO, SysHz(t), back);
    CeilThenNearest(ns, SysHz(t), NANO, ticks, back);
  }

  /** The same for microseconds. */
  lemma NeverShortUs(t: Tree, us: nat, ticks: nat, back: nat)
    requires Validate(t) == Ok
    requires Ceiling(us * SysHz(t), MICRO, ticks) && ticks < U64_LIMIT
    requires Nearest(ticks * MICRO, SysHz(t), back) && back < U64_LIMIT
    ensures TicksToUs(t, UsToTicks(t, us)) == back >= us
  {
    hide SysHz, MuldivRound, MuldivCeil;
    SysHzBounds(t);
    CeilIsExact(us, SysHz(t), MICRO, ticks);
    RoundIsExact(ticks, MICRO, SysHz(t), back);
    CeilThenNearest(us, SysHz(t), MICRO, ticks, back);
  }

  /** A tick count survives the trip through nanoseconds, give or take one up. */
  lemma TicksSurvive(t: Tree, ticks: nat, ns: nat)
    requires Validate(t) == Ok && ticks + 1 < U64_LIMIT
    requires Nearest(ticks * NANO, SysHz(t), ns) && ns < U64_LIMIT
    ensures NsToTicks(t, TicksToNs(t, ticks)) == ticks || NsToTicks(t, TicksToNs(t, ticks)) == ticks + 1
  {
    hide SysHz, MuldivRound, MuldivCeil;
    SysHzBounds(t);
    var hz := SysHz(t);
    RoundIsExact(ticks, NANO, hz, ns);
    var c := (ns * hz + NANO - 1) / NANO;
    CarryIsCeiling(ns * hz, NANO);
    NearestThenCeil(ticks, hz, NANO, ns, c);
    CeilIsExact(ns, hz, NANO, c);
  }

  lemma CeilBound(ns: nat, hz: nat, c: nat)
    requires ns < 0x8000_0000_0000_0000 && hz <= VCO_MAX && Ceiling(ns * hz, NANO, c)
    ensures c < U64_LIMIT
  {
    MonotoneTimes(hz, VCO_MAX, ns);
  }

  lemma NearestBound(ns: nat, hz: nat, c: nat, n: nat)
    requires 1 <= hz && Ceiling(ns * hz, NANO, c) && Nearest(c * NANO, hz, n)
    ensures n <= ns + NANO + 1
  {
    Spread(ns, hz);
    OneMoreTime(c, NANO);
    if n > ns + NANO + 1 { MonotoneTimes(ns + NANO + 2, n, hz); }
  }

  lemma Spread(ns: nat, hz: nat)
    requires hz >= 1
    ensures (ns + NANO + 2) * hz >= ns * hz + NANO + 2 * hz
  {
    MonotoneTimes(1, hz, NANO);
    assert (ns + NANO + 2) * hz == ns * hz + NANO * hz + 2 * hz;
  }

  /** Every time below 2^63 ns (292 years) is in range. */
  lemma NeverShortInRange(t: Tree, ns: nat)
    requires Validate(t) == Ok && ns < 0x8000_0000_0000_0000
    ensures TicksToNs(t, NsToTicks(t, ns)) >= ns
  {
    hide SysHz, MuldivRound, MuldivCeil;
    SysHzBounds(t);
    hide Nearest, Ceiling, TicksToNs, NsToTicks, Validate;
    var hz := SysHz(t);
    var c := CeilingExists(Times(ns, hz), NANO);
    CeilBound(ns, hz, c);
    var n := NearestExists(Times(c, NANO), hz);
    NearestBound(ns, hz, c, n);
    CeilThenNearest(ns, hz, NANO, c, n);
    NeverShort(t, ns, c, n);
  }

  lemma CeilingExists(a: nat, b: nat) returns (c: nat)
    requires b > 0
    ensures Ceiling(a, b, c)
  {
    CarryIsCeiling(a, b);
    c := Quot(a + b - 1, b);
  }

  lemma NearestExists(a: nat, b: nat) returns (n: nat)
    requires b > 0
    ensures Nearest(a, b, n)
  {
    HalfUpIsNearest(a, b);
    n := Quot(a + b / 2, b);
  }

  // ---- the tree in place ----------------------------------------------------------------------------

  lemma BootFrequency()
    ensures Validate(BootTree()) == Ok && SysHz(BootTree()) == 150_000_000
  {
  }

  function BootTree(): Tree {
    Tree(12_000_000, 1, 125, 5, 2, 1, 0, false)
  }

  class ClockRegisters {
    var tree: Tree

    /** pio_clk_init_default: 150 MHz. */
    constructor ()
      ensures Validate(tree) == Ok && SysHz(tree) == 150_000_000
    {
      tree := BootTree();
      new;
      BootFrequency();
    }

    /** pio_clk_configure_pll: all or nothing, so a legal tree stays legal. */
    method ConfigurePll(refdiv: nat, fbdiv: nat, postdiv1: nat, postdiv2: nat) returns (err: Verdict)
      modifies this
      ensures var trial := old(tree).(refdiv := refdiv, fbdiv := fbdiv, postdiv1 := postdiv1, postdiv2 := postdiv2, bypass := false);
              err == Validate(trial) && tree == if err == Ok then trial else old(tree)
      ensures Validate(old(tree)) == Ok ==> Validate(tree) == Ok
    {
      hide Validate;
      var trial := tree;
      trial := trial.(refdiv := refdiv, fbdiv := fbdiv);
      trial := trial.(postdiv1 := postdiv1, postdiv2 := postdiv2);
      trial := trial.(bypass := false);
      err := Validate(trial);
      if err == Ok { tree := trial; }
    }
  }
}
