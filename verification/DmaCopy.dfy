/** What memory-to-memory channels do: every cursor follows a closed form, and
    the destination receives exactly the source elements. */
module DmaCopy {
  import opened Bits
  import opened Crc
  import opened Options
  import opened Runs
  import opened Dma
  import opened DmaChain

  // ---- cursors --------------------------------------------------------------------

  /** `off` bytes past `p`, inside the naturally aligned window of `size` bytes. */
  function InRing(p: nat, size: nat, off: nat): nat
    requires size > 0
  {
    WindowBase(p, size) + (p % size + off) % size
  }

  /** A memory cursor `off` bytes into its walk: it stays, moves linearly, or moves
      inside its window of 2^ringSize bytes. */
  function Walked(p: nat, incr: bool, ringSize: nat, ringApplies: bool, off: nat): nat {
    if !incr then p
    else if ringApplies && 0 < ringSize < POINTER_BITS then InRing(p, Pow2(ringSize), off)
    else p + off
  }

  /** Where a memory cursor stands after `k` elements of `n` bytes. */
  function Cursor(p: nat, incr: bool, ringSize: nat, ringApplies: bool, n: nat, k: nat): nat {
    Walked(p, incr, ringSize, ringApplies, k * n)
  }

  lemma DivStep(a: nat, n: nat, size: nat)
    requires size > 0
    ensures (a % size + n) % size == (a + n) % size
  {
    var q, x := a / size, a % size;
    var u, v := (x + n) / size, (x + n) % size;
    assert a + n == (q + u) * size + v;
    ModUnique(a + n, size, q + u, v);
  }

  lemma InWindow(p: nat, size: nat, x: nat)
    requires x < size
    ensures (WindowBase(p, size) + x) % size == x && WindowBase(WindowBase(p, size) + x, size) == WindowBase(p, size)
  {
    var b := WindowBase(p, size);
    assert b == (p / size) * size;
    ModUnique(b + x, size, p / size, x);
  }

  lemma RingStep(p: nat, size: nat, n: nat, a: nat)
    requires size > 0
    ensures RingNext(WindowBase(p, size) + a % size, size, n) == WindowBase(p, size) + (a + n) % size
  {
    InWindow(p, size, a % size);
    DivStep(a, n, size);
  }

  lemma RingStart(p: nat, size: nat)
    requires size > 0
    ensures WindowBase(p, size) + (p % size) % size == p
  {
    ModUnique(p % size, size, 0, p % size);
  }

  lemma CursorStarts(p: nat, incr: bool, ringSize: nat, ringApplies: bool, n: nat)
    ensures Cursor(p, incr, ringSize, ringApplies, n, 0) == p
  {
    RingStart(p, Pow2(ringSize));
  }

  lemma WindowSteps(p: nat, size: nat, n: nat, off: nat)
    requires size > 0
    ensures RingNext(InRing(p, size, off), size, n) == InRing(p, size, off + n)
  {
    hide RingNext, WindowBase;
    RingStep(p, size, n, p % size + off);
  }

  lemma WalkSteps(p: nat, incr: bool, ringSize: nat, ringApplies: bool, n: nat, off: nat)
    ensures Advance(Mem(Some(Walked(p, incr, ringSize, ringApplies, off))), incr, ringSize, ringApplies, n)
         == Mem(Some(Walked(p, incr, ringSize, ringApplies, off + n)))
  {
    hide RingNext, InRing, Pow2;
    WindowSteps(p, Pow2(ringSize), n, off);
  }

  /** One more advance is one more element. */
  lemma CursorSteps(p: nat, incr: bool, ringSize: nat, ringApplies: bool, n: nat, k: nat)
    ensures Advance(Mem(Some(Cursor(p, incr, ringSize, ringApplies, n, k))), incr, ringSize, ringApplies, n)
         == Mem(Some(Cursor(p, incr, ringSize, ringApplies, n, k + 1)))
  {
    hide Walked, Advance;
    assert (k + 1) * n == k * n + n;
    WalkSteps(p, incr, ringSize, ringApplies, n, k * n);
  }

  /** A channel's program with the cursors it started from. */
  datatype Job = Job(ctrl: Ctrl, src: nat, dst: nat) {
    function SrcAt(k: nat): nat {
      Cursor(src, ctrl.incrRead, ctrl.ringSize, !ctrl.ringWrite, Bytes(ctrl.size), k)
    }

    function DstAt(k: nat): nat {
      Cursor(dst, ctrl.incrWrite, ctrl.ringSize, ctrl.ringWrite, Bytes(ctrl.size), k)
    }
  }

  /** The channel's cursors after `k` elements of the job. */
  ghost predicate At(ch: Channel, job: Job, k: nat) {
    ch.ctrl == job.ctrl && ch.read == Mem(Some(job.SrcAt(k))) && ch.write == Mem(Some(job.DstAt(k)))
  }

  lemma AdvanceJob(ch: Channel, job: Job, k: nat)
    requires At(ch, job, k)
    ensures At(AdvanceBoth(ch), job, k + 1)
  {
    var n := Bytes(job.ctrl.size);
    CursorSteps(job.src, job.ctrl.incrRead, job.ctrl.ringSize, !job.ctrl.ringWrite, n, k);
    CursorSteps(job.dst, job.ctrl.incrWrite, job.ctrl.ringSize, job.ctrl.ringWrite, n, k);
    hide Cursor, Advance;
  }

  lemma CompleteCursors(d: Dma, i: nat, j: nat)
    requires i < CHANNELS && j < CHANNELS
    ensures Complete(d, i).ch[j].read == d.ch[j].read && Complete(d, i).ch[j].write == d.ch[j].write
  {
    hide CountDown;
  }

  /** A transfer moves only its own channel's cursors. */
  lemma TransferCursors(c: Chip, i: nat, j: nat)
    requires c.Valid() && i < CHANNELS && j < CHANNELS && Ready(c, i)
    ensures var b := if j == i then AdvanceBoth(c.dma.ch[i]) else c.dma.ch[j];
            Transfer(c, i).dma.ch[j].read == b.read && Transfer(c, i).dma.ch[j].write == b.write
  {
    ReadyRoutes(c, i);
    hide ReadElement, Ready, CanRead, CanWrite, PokeBytes, SniffStep, SpendCredit, AdvanceBoth, Complete, PutWord;
    var ch := c.dma.ch[i];
    var v := Moved(ch.ctrl, ReadElement(c, ch.read, Bytes(ch.ctrl.size)).0);
    var d := c.dma.(sniff := SniffStep(c.dma.sniff, ch.ctrl, i, v),
                    timer := SpendCredit(c.dma.timer, ch.ctrl.treq),
                    ch := c.dma.ch[i := AdvanceBoth(ch)]);
    CompleteCursors(d, i, j);
  }

  lemma TransferAt(c: Chip, i: nat, j: nat, job: Job, k: nat)
    requires c.Valid() && i < CHANNELS && j < CHANNELS && Ready(c, i) && At(c.dma.ch[j], job, k)
    ensures At(Transfer(c, i).dma.ch[j], job, if j == i then k + 1 else k)
  {
    TransferCursors(c, i, j);
    TransferChannel(c, i, j);
    if j == i { AdvanceJob(c.dma.ch[i], job, k); }
    hide Transfer, Ready, CountDown, Cursor, Advance;
  }

  lemma TickAt(c: Chip, j: Chan, job: Job, k: nat)
    requires c.Valid() && At(c.dma.ch[j], job, k)
    ensures At(Tick(c).dma.ch[j], job, if ServesRing(c, [j]) then k + 1 else k)
  {
    hide At, Transfer, Choice, Ready, TimersTick;
    var c1 := TickTimers(c);
    var i := Choice(c1);
    assert ServesRing(c, [j]) == (i == Some(j));
    if i.Some? { TransferAt(c1, i.value, j, job, k); }
  }

  /** In every run, whatever paces the channel and whatever the others do, the
      k-th element's addresses are the closed form of k. */
  lemma {:induction false} CursorsFollow(c: Chip, j: Chan, job: Job, k: nat, ops: seq<DmaOp>)
    requires c.Valid() && OpsApply(ops, c.env) && At(c.dma.ch[j], job, k)
    requires forall x :: 0 <= x < |ops| ==> ops[x].TickOp? || ops[x].PioOp?
    ensures At(RunOps(c, ops).dma.ch[j], job, k + RingServes(c, [j], ops))
    decreases ops
  {
    hide At, Tick, ServesRing;
    if ops != [] {
      var c' := DoOp(c, ops[0]);
      OpsTail(ops, c.env, c'.env);
      if ops[0].TickOp? {
        TickAt(c, j, job, k);
        CursorsFollow(c', j, job, if ServesRing(c, [j]) then k + 1 else k, ops[1..]);
      } else {
        CursorsFollow(c', j, job, k, ops[1..]);
      }
    }
  }

  // ---- contents -------------------------------------------------------------------

  lemma {:induction false} PokePeek(m: Memory, a: nat, bs: seq<Byte>, x: nat)
    ensures Peek(PokeBytes(m, a, bs), x) == if a <= x < a + |bs| then bs[x - a] else Peek(m, x)
    decreases |bs|
  {
    if bs != [] { PokePeek(m, a, bs[..|bs| - 1], x); }
  }

  lemma {:induction false} PeekBytesAt(m: Memory, a: nat, n: nat, j: nat)
    requires j < n
    ensures PeekBytes(m, a, n)[j] == Peek(m, a + j)
    decreases n
  {
    if j < n - 1 { PeekBytesAt(m, a, n - 1, j); }
  }

  lemma {:induction false} SplitAt(v: Word, n: nat, j: nat)
    requires j < n <= 4
    ensures Split(v, n)[j] == ByteAt(v, j)
    decreases n
  {
    if j < n - 1 { SplitAt(v, n - 1, j); }
  }

  lemma ElementByte(bs: seq<Byte>, j: nat)
    requires j < |bs| <= 4
    ensures ByteAt(Element(bs), j) == bs[j]
  {
    JoinSlice(bs, j);
    assert ByteAt(Element(bs), j) == Crc.Join(bs)[8 * j..8 * j + 8];
  }

  /** The source byte that lands in byte `j` of an element. */
  function Lane(ctrl: Ctrl, j: nat): (l: nat)
    requires j < Bytes(ctrl.size)
    ensures l < Bytes(ctrl.size)
  {
    if ctrl.bswap then Bytes(ctrl.size) - 1 - j else j
  }

  /** The byte swapper reverses the bytes of the element. */
  lemma MovedByte(ctrl: Ctrl, v: Word, j: nat)
    requires j < Bytes(ctrl.size)
    ensures ByteAt(Moved(ctrl, v), j) == ByteAt(v, Lane(ctrl, j))
  {
    var n := Bytes(ctrl.size);
    if ctrl.bswap {
      if n == 2 { SwapTwo(v, j); }
      else if n == 4 { SwapFour(v, j); }
    }
  }

  lemma SwapTwo(v: Word, j: nat)
    requires j < 2
    ensures ByteAt(Swap(v, 2), j) == ByteAt(v, 1 - j)
  {
    var w: Word := Swap(v, 2);
    assert w[0..8] == ByteAt(v, 1);
    assert w[8..16] == ByteAt(v, 0);
  }

  lemma SwapFour(v: Word, j: nat)
    requires j < 4
    ensures ByteAt(Swap(v, 4), j) == ByteAt(v, 3 - j)
  {
    var w: Word := Swap(v, 4);
    assert w[0..8] == ByteAt(v, 3);
    assert w[8..16] == ByteAt(v, 2);
    assert w[16..24] == ByteAt(v, 1);
    assert w[24..32] == ByteAt(v, 0);
  }

  /** What one element of the job writes. */
  function Payload(m: Memory, job: Job, k: nat): (bs: seq<Byte>)
    ensures |bs| == Bytes(job.ctrl.size)
  {
    var n := Bytes(job.ctrl.size);
    Split(Moved(job.ctrl, Element(PeekBytes(m, job.SrcAt(k), n))), n)
  }

  lemma PayloadByte(m: Memory, job: Job, k: nat, j: nat)
    requires j < Bytes(job.ctrl.size)
    ensures Payload(m, job, k)[j] == Peek(m, Origin(job, k, Lane(job.ctrl, j)))
  {
    var n, l := Bytes(job.ctrl.size), Lane(job.ctrl, j);
    var bs := PeekBytes(m, job.SrcAt(k), n);
    SplitAt(Moved(job.ctrl, Element(bs)), n, j);
    MovedByte(job.ctrl, Element(bs), j);
    ElementByte(bs, l);
    PeekBytesAt(m, job.SrcAt(k), n, l);
    hide Cursor, Split, Moved, Element, ByteAt, PeekBytes, Peek;
  }

  /** A memory-to-memory transfer writes its payload and touches nothing else. */
  lemma TransferMemory(c: Chip, i: nat, job: Job, k: nat)
    requires c.Valid() && i < CHANNELS && Ready(c, i) && At(c.dma.ch[i], job, k)
    ensures Transfer(c, i).mem == PokeBytes(c.mem, job.DstAt(k), Payload(c.mem, job, k))
    ensures Transfer(c, i).env == c.env
  {
    hide Ready, PokeBytes, SniffStep, SpendCredit, AdvanceBoth, Complete, Split, Moved, Element, PeekBytes, Cursor;
  }

  /** Byte `j` of the destination's element `e`. */
  function Spot(job: Job, e: nat, j: nat): nat {
    job.dst + e * Bytes(job.ctrl.size) + j
  }

  /** Byte `l` of the source's element `e`. */
  function Origin(job: Job, e: nat, l: nat): nat {
    job.SrcAt(e) + l
  }

  /** `m` is `m0` with the first `k` elements of the job stored from `dst` up, and
      nothing else changed but at the addresses `w` that others wrote. */
  ghost predicate Copied(m0: Memory, m: Memory, job: Job, k: nat, w: set<nat>) {
    && (forall e: nat, j: nat :: e < k && j < Bytes(job.ctrl.size) ==>
          Peek(m, Spot(job, e, j)) == Peek(m0, Origin(job, e, Lane(job.ctrl, j))))
    && (forall a: nat :: (a < job.dst || a >= Spot(job, k, 0)) && a !in w ==> Peek(m, a) == Peek(m0, a))
  }

  /** No source byte of the first `total` elements lies in the destination. */
  ghost predicate Apart(job: Job, total: nat) {
    forall e: nat, j: nat :: e < total && j < Bytes(job.ctrl.size) ==>
      (Origin(job, e, j) < job.dst || Origin(job, e, j) >= Spot(job, total, 0))
  }

  /** The addresses `w` lie neither in the source nor in the destination. */
  ghost predicate Off(job: Job, total: nat, w: set<nat>) {
    && (forall a :: a in w ==> a < job.dst || a >= Spot(job, total, 0))
    && (forall e: nat, j: nat :: e < total && j < Bytes(job.ctrl.size) ==> Origin(job, e, j) !in w)
  }

  /** The job writes upwards with no write ring. */
  predicate Linear(job: Job) {
    job.ctrl.incrWrite && (job.ctrl.ringSize == 0 || !job.ctrl.ringWrite)
  }

  lemma SpotOrder(job: Job, e: nat, f: nat)
    requires e <= f
    ensures Spot(job, e, 0) <= Spot(job, f, 0)
    ensures e < f ==> Spot(job, e, Bytes(job.ctrl.size)) <= Spot(job, f, 0)
  {
    var n := Bytes(job.ctrl.size);
    assert f * n == e * n + (f - e) * n;
    assert e < f ==> (f - e) * n >= n;
  }

  /** A linear source that does not overlap the destination is apart from it. */
  lemma DisjointIsApart(job: Job, total: nat)
    requires job.ctrl.incrRead && job.ctrl.ringSize == 0
    requires job.src + total * Bytes(job.ctrl.size) <= job.dst || Spot(job, total, 0) <= job.src
    ensures Apart(job, total)
  {
    var n := Bytes(job.ctrl.size);
    forall e: nat, j: nat | e < total && j < n
      ensures Origin(job, e, j) < job.dst || Origin(job, e, j) >= Spot(job, total, 0)
    {
      SpotOrder(job, e, total);
      assert Origin(job, e, j) == job.src + e * n + j;
    }
  }

  lemma SourceIntact(m0: Memory, m: Memory, job: Job, k: nat, total: nat, l: nat, w: set<nat>)
    requires k < total && Apart(job, total) && Off(job, total, w) && Copied(m0, m, job, k, w) && l < Bytes(job.ctrl.size)
    ensures Peek(m, Origin(job, k, l)) == Peek(m0, Origin(job, k, l))
  {
    SpotOrder(job, k, total);
    var a := Origin(job, k, l);
    assert a < job.dst || a >= Spot(job, total, 0);
    assert a !in w;
    hide Cursor, Peek, Origin, Spot;
  }

  lemma StoredByte(m0: Memory, m: Memory, job: Job, k: nat, total: nat, e: nat, j: nat, w: set<nat>)
    requires k < total && Apart(job, total) && Off(job, total, w) && Copied(m0, m, job, k, w)
    requires e <= k && j < Bytes(job.ctrl.size)
    ensures Peek(PokeBytes(m, Spot(job, k, 0), Payload(m, job, k)), Spot(job, e, j)) == Peek(m0, Origin(job, e, Lane(job.ctrl, j)))
  {
    hide PokeBytes, Payload, Cursor, Peek, Apart, Off;
    PokePeek(m, Spot(job, k, 0), Payload(m, job, k), Spot(job, e, j));
    if e < k {
      SpotBefore(job, e, k, j);
      CopiedByte(m0, m, job, k, e, j, w);
    } else {
      hide Copied;
      PayloadByte(m, job, k, j);
      SourceIntact(m0, m, job, k, total, Lane(job.ctrl, j), w);
    }
  }

  lemma SpotBefore(job: Job, e: nat, k: nat, j: nat)
    requires e < k && j < Bytes(job.ctrl.size)
    ensures Spot(job, e, j) < Spot(job, k, 0)
  {
    SpotOrder(job, e, k);
  }

  lemma CopiedByte(m0: Memory, m: Memory, job: Job, k: nat, e: nat, j: nat, w: set<nat>)
    requires Copied(m0, m, job, k, w) && e < k && j < Bytes(job.ctrl.size)
    ensures Peek(m, Spot(job, e, j)) == Peek(m0, Origin(job, e, Lane(job.ctrl, j)))
  {
    hide Peek, Origin, Cursor;
  }

  lemma OutsideKept(m0: Memory, m: Memory, job: Job, k: nat, a: nat, w: set<nat>)
    requires Copied(m0, m, job, k, w) && (a < job.dst || a >= Spot(job, k, Bytes(job.ctrl.size))) && a !in w
    ensures Peek(PokeBytes(m, Spot(job, k, 0), Payload(m, job, k)), a) == Peek(m0, a)
  {
    PokePeek(m, Spot(job, k, 0), Payload(m, job, k), a);
    SpotOrder(job, 0, k);
    hide PokeBytes, Payload, Cursor, Peek, Origin;
  }

  /** The next element extends the copy. */
  lemma CopyOneMore(m0: Memory, m: Memory, job: Job, k: nat, total: nat, w: set<nat>)
    requires Linear(job) && k < total && Apart(job, total) && Off(job, total, w) && Copied(m0, m, job, k, w)
    ensures Copied(m0, PokeBytes(m, job.DstAt(k), Payload(m, job, k)), job, k + 1, w)
  {
    var n := Bytes(job.ctrl.size);
    assert job.DstAt(k) == Spot(job, k, 0);
    assert Spot(job, k + 1, 0) == Spot(job, k, n) by { assert (k + 1) * n == k * n + n; }
    hide PokeBytes, Payload, Cursor, Peek, Apart, Off, Origin, Spot;
    var m' := PokeBytes(m, Spot(job, k, 0), Payload(m, job, k));
    forall e: nat, j: nat | e < k + 1 && j < n
      ensures Peek(m', Spot(job, e, j)) == Peek(m0, Origin(job, e, Lane(job.ctrl, j)))
    {
      StoredByte(m0, m, job, k, total, e, j, w);
    }
    forall a: nat | (a < job.dst || a >= Spot(job, k + 1, 0)) && a !in w
      ensures Peek(m', a) == Peek(m0, a)
    {
      OutsideKept(m0, m, job, k, a, w);
    }
  }

  // ---- other channels ------------------------------------------------------------------

  /** The `n` addresses from `p` up. */
  function From(p: nat, n: nat): (r: set<nat>)
    ensures forall a: nat :: a in r <==> p <= a < p + n
  {
    if n == 0 then {} else From(p, n - 1) + {p + n - 1}
  }

  /** The addresses a channel's next transfer writes. */
  function Footprint(ch: Channel): set<nat> {
    if ch.write.Mem? && ch.write.ptr.Some? then From(ch.write.ptr.value, Bytes(ch.ctrl.size)) else {}
  }

  /** A transfer changes memory only on its footprint. */
  lemma TransferFootprint(c: Chip, x: nat, a: nat)
    requires c.Valid() && x < CHANNELS && Ready(c, x) && a !in Footprint(c.dma.ch[x])
    ensures Peek(Transfer(c, x).mem, a) == Peek(c.mem, a)
  {
    ReadyRoutes(c, x);
    hide Ready, Peek, PokeBytes, SniffStep, SpendCredit, AdvanceBoth, Complete, Split, Moved, ReadElement, PutWord;
    var ch := c.dma.ch[x];
    var n := Bytes(ch.ctrl.size);
    if ch.write.Mem? {
      PokePeek(c.mem, ch.write.ptr.value, Split(Moved(ch.ctrl, ReadElement(c, ch.read, n).0), n), a);
    }
  }

  /** The addresses channels other than `i` write in the next tick. */
  function OthersNow(c: Chip, i: Chan): set<nat>
    requires c.Valid()
  {
    var x := Choice(TickTimers(c));
    if x.Some? && x.value != i then Footprint(c.dma.ch[x.value]) else {}
  }

  /** The addresses channels other than `i` write during a run. */
  function OthersWrite(c: Chip, i: Chan, ops: seq<DmaOp>): set<nat>
    requires c.Valid() && OpsApply(ops, c.env)
    decreases ops
  {
    if ops == [] then {}
    else
      OpsTail(ops, c.env, DoOp(c, ops[0]).env);
      (if ops[0].TickOp? then OthersNow(c, i) else {}) + OthersWrite(DoOp(c, ops[0]), i, ops[1..])
  }

  lemma OtherKeepsCopy(m0: Memory, m: Memory, m': Memory, job: Job, k: nat, total: nat, w: set<nat>, f: set<nat>)
    requires k <= total && Copied(m0, m, job, k, w) && Off(job, total, w + f)
    requires forall a: nat :: a !in f ==> Peek(m', a) == Peek(m, a)
    ensures Copied(m0, m', job, k, w + f)
  {
    hide Peek, Origin, Cursor, Spot;
    forall e: nat, j: nat | e < k && j < Bytes(job.ctrl.size)
      ensures Peek(m', Spot(job, e, j)) == Peek(m0, Origin(job, e, Lane(job.ctrl, j)))
    {
      SpotInside(job, e, j, total);
      assert Spot(job, e, j) !in w + f;
    }
  }

  lemma SpotInside(job: Job, e: nat, j: nat, total: nat)
    requires e < total && j < Bytes(job.ctrl.size)
    ensures job.dst <= Spot(job, e, j) < Spot(job, total, 0)
  {
    SpotOrder(job, e, total);
  }

  /** Channel `i` has `total - k` elements to go, and no channel chains into it. */
  ghost predicate Works(d: Dma, i: nat, total: nat, k: nat)
    requires i < CHANNELS
  {
    && k <= total && d.ch[i].count == total - k && d.ch[i].busy == (k < total)
    && forall j :: 0 <= j < CHANNELS && j != i ==> d.ch[j].ctrl.chainTo != i
  }

  lemma TransferKeepsChain(c: Chip, x: nat, j: nat)
    requires c.Valid() && x < CHANNELS && j < CHANNELS && Ready(c, x)
    ensures Transfer(c, x).dma.ch[j].ctrl == c.dma.ch[j].ctrl
  {
    hide Transfer, Ready, CountDown;
    TransferChannel(c, x, j);
  }

  lemma TransferCounts(c: Chip, x: nat, i: nat, total: nat, k: nat)
    requires c.Valid() && i < CHANNELS && x < CHANNELS && Ready(c, x) && Works(c.dma, i, total, k)
    ensures x == i ==> k < total
    ensures var k', r := if x == i then k + 1 else k, Transfer(c, x).dma.ch[i];
            k' <= total && r.count == total - k' && r.busy == (k' < total)
  {
    assert c.dma.ch[x].busy;
    hide Transfer, Ready;
    TransferChannel(c, x, i);
  }

  lemma TransferWorks(c: Chip, x: nat, i: nat, total: nat, k: nat)
    requires c.Valid() && i < CHANNELS && x < CHANNELS && Ready(c, x) && Works(c.dma, i, total, k)
    ensures x == i ==> k < total
    ensures Works(Transfer(c, x).dma, i, total, if x == i then k + 1 else k)
  {
    TransferCounts(c, x, i, total, k);
    hide Transfer, Ready;
    forall j | 0 <= j < CHANNELS && j != i
      ensures Transfer(c, x).dma.ch[j].ctrl.chainTo != i
    {
      TransferKeepsChain(c, x, j);
    }
  }

  lemma SameTableWorks(d: Dma, r: Dma, i: nat, total: nat, k: nat)
    requires i < CHANNELS && Works(d, i, total, k) && r.ch == d.ch
    ensures Works(r, i, total, k)
  {
  }

  /** A transfer of the copying channel. */
  lemma OwnTransferCopies(c: Chip, i: Chan, job: Job, total: nat, k: nat, m0: Memory, w: set<nat>)
    requires c.Valid() && Ready(c, i) && Linear(job) && Apart(job, total) && Off(job, total, w)
    requires At(c.dma.ch[i], job, k) && Works(c.dma, i, total, k) && Copied(m0, c.mem, job, k, w)
    ensures Copied(m0, Transfer(c, i).mem, job, k + 1, w)
  {
    hide *;
    TransferWorks(c, i, i, total, k);
    TransferMemory(c, i, job, k);
    CopyOneMore(m0, c.mem, job, k, total, w);
  }

  /** A transfer of another channel. */
  lemma OtherTransferCopies(c: Chip, x: nat, i: Chan, job: Job, total: nat, k: nat, m0: Memory, w: set<nat>)
    requires c.Valid() && x < CHANNELS && Ready(c, x) && Works(c.dma, i, total, k) && Copied(m0, c.mem, job, k, w)
    requires Off(job, total, w + Footprint(c.dma.ch[x]))
    ensures Copied(m0, Transfer(c, x).mem, job, k, w + Footprint(c.dma.ch[x]))
  {
    hide *;
    forall a: nat | a !in Footprint(c.dma.ch[x])
      ensures Peek(Transfer(c, x).mem, a) == Peek(c.mem, a)
    {
      TransferFootprint(c, x, a);
    }
    WorksInRange(c.dma, i, total, k);
    OtherKeepsCopy(m0, c.mem, Transfer(c, x).mem, job, k, total, w, Footprint(c.dma.ch[x]));
  }

  lemma WorksInRange(d: Dma, i: nat, total: nat, k: nat)
    requires i < CHANNELS && Works(d, i, total, k)
    ensures k <= total
  {
  }

  lemma TickWorks(c: Chip, i: Chan, total: nat, k: nat)
    requires c.Valid() && Works(c.dma, i, total, k)
    ensures Works(Tick(c).dma, i, total, if ServesRing(c, [i]) then k + 1 else k)
  {
    var c1 := TickTimers(c);
    TickFrame(c);
    SameTableWorks(c.dma, c1.dma, i, total, k);
    hide Works, Transfer, Choice, Ready, TickTimers, Tick;
    var x := Choice(c1);
    if x.Some? {
      TransferWorks(c1, x.value, i, total, k);
      SameTableWorks(Transfer(c1, x.value).dma, Tick(c).dma, i, total, if x.value == i then k + 1 else k);
    } else {
      SameTableWorks(c1.dma, Tick(c).dma, i, total, k);
    }
  }

  lemma TickMemory(c: Chip, i: Chan, job: Job, total: nat, k: nat, m0: Memory, w: set<nat>)
    requires c.Valid() && Linear(job) && Apart(job, total) && Off(job, total, w + OthersNow(c, i))
    requires At(c.dma.ch[i], job, k) && Works(c.dma, i, total, k) && Copied(m0, c.mem, job, k, w)
    ensures Copied(m0, Tick(c).mem, job, if ServesRing(c, [i]) then k + 1 else k, w + OthersNow(c, i))
  {
    var c1 := TickTimers(c);
    TickFrame(c);
    SameTableWorks(c.dma, c1.dma, i, total, k);
    hide Works, Copied, Apart, Off, At, Linear, Transfer, Choice, Ready, TickTimers, Tick, Footprint;
    var x := Choice(c1);
    assert w + {} == w;
    if x == Some(i) {
      OwnTransferCopies(c1, i, job, total, k, m0, w);
    } else if x.Some? {
      OtherTransferCopies(c1, x.value, i, job, total, k, m0, w);
    }
  }

  /** One tick of a copy: the channel moved one more element, or another channel
      wrote elsewhere, or nothing happened. */
  lemma TickCopies(c: Chip, i: Chan, job: Job, total: nat, k: nat, m0: Memory, w: set<nat>)
    requires c.Valid() && Linear(job) && Apart(job, total) && Off(job, total, w + OthersNow(c, i))
    requires At(c.dma.ch[i], job, k) && Works(c.dma, i, total, k) && Copied(m0, c.mem, job, k, w)
    ensures var k' := if ServesRing(c, [i]) then k + 1 else k;
            Works(Tick(c).dma, i, total, k') && Copied(m0, Tick(c).mem, job, k', w + OthersNow(c, i))
  {
    hide *;
    TickWorks(c, i, total, k);
    TickMemory(c, i, job, total, k, m0, w);
  }

  lemma OffLess(job: Job, total: nat, w: set<nat>, v: set<nat>)
    requires Off(job, total, w) && v <= w
    ensures Off(job, total, v)
  {
    hide Origin, Spot;
  }

  /** Copy correctness over every run, however paced and whatever other channels do
      elsewhere: after k elements the destination holds the k source elements, bytes
      reversed per element iff bswap, and nothing else changed but where the others
      wrote. */
  lemma {:induction false} CopyIsExact(c: Chip, i: Chan, job: Job, total: nat, k: nat, m0: Memory, w: set<nat>, ops: seq<DmaOp>)
    requires c.Valid() && OpsApply(ops, c.env) && Linear(job) && Apart(job, total)
    requires At(c.dma.ch[i], job, k) && Works(c.dma, i, total, k) && Copied(m0, c.mem, job, k, w)
    requires forall x :: 0 <= x < |ops| ==> ops[x].TickOp? || ops[x].PioOp?
    requires Off(job, total, w + OthersWrite(c, i, ops))
    ensures var k', r := k + RingServes(c, [i], ops), RunOps(c, ops);
            Copied(m0, r.mem, job, k', w + OthersWrite(c, i, ops)) && Works(r.dma, i, total, k')
    decreases ops
  {
    hide At, Tick, ServesRing, Copied, Works, Apart, Off, Linear, OthersNow;
    if ops == [] {
      assert w + {} == w;
    } else {
      var c' := DoOp(c, ops[0]);
      OpsTail(ops, c.env, c'.env);
      if ops[0].TickOp? {
        var w' := w + OthersNow(c, i);
        assert w + OthersWrite(c, i, ops) == w' + OthersWrite(c', i, ops[1..]);
        OffLess(job, total, w + OthersWrite(c, i, ops), w');
        TickAt(c, i, job, k);
        TickCopies(c, i, job, total, k, m0, w);
        CopyIsExact(c', i, job, total, if ServesRing(c, [i]) then k + 1 else k, m0, w', ops[1..]);
      } else {
        assert OthersWrite(c, i, ops) == OthersWrite(c', i, ops[1..]);
        CopyIsExact(c', i, job, total, k, m0, w, ops[1..]);
      }
    }
  }

  lemma CopiedNothing(m: Memory, job: Job)
    ensures Copied(m, m, job, 0, {})
  {
    hide Peek, Cursor;
  }

  /** From a fresh trigger: when the channel goes idle the whole block is copied. */
  lemma CopyCompletes(c: Chip, i: Chan, job: Job, ops: seq<DmaOp>)
    requires c.Valid() && OpsApply(ops, c.env) && Linear(job) && Apart(job, c.dma.ch[i].count)
    requires c.dma.ch[i].ctrl == job.ctrl && c.dma.ch[i].read == Mem(Some(job.src)) && c.dma.ch[i].write == Mem(Some(job.dst))
    requires Works(c.dma, i, c.dma.ch[i].count, 0) && Off(job, c.dma.ch[i].count, OthersWrite(c, i, ops))
    requires forall x :: 0 <= x < |ops| ==> ops[x].TickOp? || ops[x].PioOp?
    requires !RunOps(c, ops).dma.ch[i].busy
    ensures Copied(c.mem, RunOps(c, ops).mem, job, c.dma.ch[i].count, OthersWrite(c, i, ops))
  {
    var n := Bytes(job.ctrl.size);
    CursorStarts(job.src, job.ctrl.incrRead, job.ctrl.ringSize, !job.ctrl.ringWrite, n);
    CursorStarts(job.dst, job.ctrl.incrWrite, job.ctrl.ringSize, job.ctrl.ringWrite, n);
    hide Cursor, RunOps, RingServes, OthersWrite, Copied, Off, Apart, Linear;
    CopiedNothing(c.mem, job);
    assert {} + OthersWrite(c, i, ops) == OthersWrite(c, i, ops);
    CopyIsExact(c, i, job, c.dma.ch[i].count, 0, c.mem, {}, ops);
  }

  // ---- when the others stay away -------------------------------------------------------

  /** Programmed to write no address from `lo` up to `hi`, however often it runs: into
      a FIFO, at one place, inside a write ring, or upwards from `hi`. */
  predicate Avoids(ch: Channel, lo: nat, hi: nat) {
    match ch.write
    case Mem(Some(p)) =>
      var n := Bytes(ch.ctrl.size);
      if !ch.ctrl.incrWrite then p + n <= lo || hi <= p
      else if ch.ctrl.ringWrite && 0 < ch.ctrl.ringSize < POINTER_BITS then
        var b := WindowBase(p, Pow2(ch.ctrl.ringSize));
        hi <= b || b + Pow2(ch.ctrl.ringSize) + n <= lo + 1
      else hi <= p
    case _ => true
  }

  lemma RingStays(p: nat, size: nat, n: nat)
    requires size > 0
    ensures WindowBase(RingNext(p, size, n), size) == WindowBase(p, size)
    ensures WindowBase(p, size) <= p < WindowBase(p, size) + size
  {
    InWindow(p, size, (p % size + n) % size);
  }

  lemma AdvanceAvoids(ch: Channel, lo: nat, hi: nat)
    requires Avoids(ch, lo, hi)
    ensures Avoids(AdvanceBoth(ch), lo, hi)
  {
    hide Pow2, WindowBase, RingNext;
    if ch.write.Mem? && ch.write.ptr.Some? {
      RingStays(ch.write.ptr.value, Pow2(ch.ctrl.ringSize), Bytes(ch.ctrl.size));
    }
  }

  lemma AvoidsFootprint(ch: Channel, lo: nat, hi: nat, a: nat)
    requires Avoids(ch, lo, hi) && a in Footprint(ch)
    ensures a < lo || hi <= a
  {
    hide Pow2, WindowBase;
    if ch.write.Mem? && ch.write.ptr.Some? {
      RingStays(ch.write.ptr.value, Pow2(ch.ctrl.ringSize), 0);
    }
  }

  lemma TickAvoids(c: Chip, j: Chan, lo: nat, hi: nat)
    requires c.Valid() && Avoids(c.dma.ch[j], lo, hi)
    ensures Avoids(Tick(c).dma.ch[j], lo, hi)
  {
    TickFrame(c);
    hide Avoids, Transfer, Choice, Ready, TickTimers, Tick, AdvanceBoth;
    var c1 := TickTimers(c);
    var x := Choice(c1);
    if x.Some? {
      TransferCursors(c1, x.value, j);
      TransferChannel(c1, x.value, j);
      AdvanceAvoids(c.dma.ch[j], lo, hi);
      AvoidsDepends(if j == x.value then AdvanceBoth(c.dma.ch[j]) else c.dma.ch[j], Tick(c).dma.ch[j], lo, hi);
    }
  }

  lemma AvoidsDepends(a: Channel, b: Channel, lo: nat, hi: nat)
    requires Avoids(a, lo, hi) && b.write == a.write && b.ctrl == a.ctrl
    ensures Avoids(b, lo, hi)
  {
  }

  /** Channels programmed to stay out of a window write nothing in it, over every run:
      the copy's condition read off the channel table. */
  lemma {:induction false} OthersStayAway(c: Chip, i: Chan, lo: nat, hi: nat, ops: seq<DmaOp>)
    requires c.Valid() && OpsApply(ops, c.env)
    requires forall x :: 0 <= x < |ops| ==> ops[x].TickOp? || ops[x].PioOp?
    requires forall j: Chan :: j != i ==> Avoids(c.dma.ch[j], lo, hi)
    ensures forall a :: a in OthersWrite(c, i, ops) ==> a < lo || hi <= a
    decreases ops
  {
    hide Avoids, Tick, Footprint;
    if ops != [] {
      var c' := DoOp(c, ops[0]);
      OpsTail(ops, c.env, c'.env);
      forall j: Chan | j != i
        ensures Avoids(c'.dma.ch[j], lo, hi)
      {
        if ops[0].TickOp? { TickAvoids(c, j, lo, hi); }
      }
      OthersStayAway(c', i, lo, hi, ops[1..]);
      forall a | a in OthersNow(c, i)
        ensures a < lo || hi <= a
      {
        AvoidsFootprint(c.dma.ch[Choice(TickTimers(c)).value], lo, hi, a);
      }
    }
  }
}
