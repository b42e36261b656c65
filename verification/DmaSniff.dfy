/** The sniffer over DMA runs: after any run its accumulator is the CRC of exactly the
    bytes its channel read, whatever the element size. */
module DmaSniff {
  import opened Crc
  import opened Options
  import opened Runs
  import opened Dma
  import opened DmaChain
  import opened DmaCopy

  /** The sniffer watches channel `i`, which moves bytes unswapped. */
  predicate Sniffs(d: Dma, i: Chan, mode: Calc) {
    && IsCrc(mode) && d.sniff.en && d.sniff.chan == i && d.sniff.mode == mode
    && d.ch[i].ctrl.sniffEn && !d.ch[i].ctrl.bswap
  }

  /** The bytes of the job's element `k`, as memory holds them. */
  function ElementBytes(m: Memory, job: Job, k: nat): (bs: seq<Byte>)
    ensures |bs| == Bytes(job.ctrl.size)
  {
    PeekBytes(m, job.SrcAt(k), Bytes(job.ctrl.size))
  }

  lemma CompleteSniff(d: Dma, i: nat)
    requires i < CHANNELS
    ensures Complete(d, i).sniff == d.sniff
  {
    hide StartChannels, NullTriggers, CountDown;
  }

  lemma TransferSniffer(c: Chip, j: nat)
    requires c.Valid() && j < CHANNELS && Ready(c, j) && CanRead(c, c.dma.ch[j].read)
    ensures var ch := c.dma.ch[j];
            Transfer(c, j).dma.sniff ==
              SniffStep(c.dma.sniff, ch.ctrl, j, Moved(ch.ctrl, ReadElement(c, ch.read, Bytes(ch.ctrl.size)).0))
  {
    ReadyRoutes(c, j);
    hide ReadElement, Ready, CanRead, CanWrite, PokeBytes, SniffStep, SpendCredit, AdvanceBoth, Complete, PutWord, Moved;
    var ch := c.dma.ch[j];
    var v := Moved(ch.ctrl, ReadElement(c, ch.read, Bytes(ch.ctrl.size)).0);
    var d := c.dma.(sniff := SniffStep(c.dma.sniff, ch.ctrl, j, v),
                    timer := SpendCredit(c.dma.timer, ch.ctrl.treq),
                    ch := c.dma.ch[j := AdvanceBoth(ch)]);
    CompleteSniff(d, j);
  }

  /** One transfer of any channel, seen by the sniffer. */
  lemma TransferSniffs(c: Chip, j: nat, i: Chan, mode: Calc, job: Job, k: nat)
    requires c.Valid() && j < CHANNELS && Ready(c, j) && Sniffs(c.dma, i, mode) && At(c.dma.ch[i], job, k)
    ensures Transfer(c, j).dma.sniff == c.dma.sniff.(data :=
              if j == i then FoldBytes(mode, c.dma.sniff.data, ElementBytes(c.mem, job, k)) else c.dma.sniff.data)
  {
    ReadyRoutes(c, j);
    TransferSniffer(c, j);
    hide Transfer, Ready, CanRead, Cursor, FoldBytes, Sniff, PeekBytes, Element;
    if j == i { SniffElement(mode, c.dma.sniff.data, ElementBytes(c.mem, job, k)); }
  }

  lemma StillSniffs(c: Chip, j: nat, i: Chan, mode: Calc, job: Job, k: nat)
    requires c.Valid() && j < CHANNELS && Ready(c, j) && Sniffs(c.dma, i, mode) && At(c.dma.ch[i], job, k)
    ensures Sniffs(Transfer(c, j).dma, i, mode)
  {
    TransferSniffs(c, j, i, mode, job, k);
    TransferChannel(c, j, i);
    hide Transfer, Ready, FoldBytes, ElementBytes, CountDown;
  }

  /** One tick: the sniffer folds in the bytes its channel read, if it was served. */
  lemma TickSniffs(c: Chip, i: Chan, mode: Calc, job: Job, k: nat)
    requires c.Valid() && Sniffs(c.dma, i, mode) && At(c.dma.ch[i], job, k)
    ensures Sniffs(Tick(c).dma, i, mode)
    ensures Tick(c).dma.sniff.data == FoldBytes(mode, c.dma.sniff.data, ReadNow(c, i, job, k))
  {
    hide At, Transfer, Choice, Ready, Tick, TickTimers, FoldBytes, ElementBytes;
    TickFrame(c);
    SniffAfterTick(c);
    var c1 := TickTimers(c);
    FoldNothing(mode, c.dma.sniff.data);
    var x := Choice(c1);
    if x.Some? {
      TransferSniffs(c1, x.value, i, mode, job, k);
      StillSniffs(c1, x.value, i, mode, job, k);
    }
  }

  lemma SniffAfterTick(c: Chip)
    requires c.Valid()
    ensures var c1 := TickTimers(c);
            c1.dma.sniff == c.dma.sniff &&
            Tick(c).dma.sniff == if Choice(c1).Some? then Transfer(c1, Choice(c1).value).dma.sniff else c.dma.sniff
  {
    hide Transfer, Choice, TimersTick, Ready;
  }

  /** The bytes channel `i` reads in the next tick. */
  function ReadNow(c: Chip, i: Chan, job: Job, k: nat): seq<Byte>
    requires c.Valid()
  {
    if ServesRing(c, [i]) then ElementBytes(c.mem, job, k) else []
  }

  /** The bytes channel `i` reads during a run that finds its job at element `k`. */
  function BytesRead(c: Chip, i: Chan, job: Job, k: nat, ops: seq<DmaOp>): seq<Byte>
    requires c.Valid() && OpsApply(ops, c.env)
    decreases ops
  {
    if ops == [] then []
    else
      OpsTail(ops, c.env, DoOp(c, ops[0]).env);
      if ops[0].TickOp? then
        ReadNow(c, i, job, k) + BytesRead(DoOp(c, ops[0]), i, job, if ServesRing(c, [i]) then k + 1 else k, ops[1..])
      else BytesRead(DoOp(c, ops[0]), i, job, k, ops[1..])
  }

  /** Over every run, whatever the pacing and the other channels, the accumulator is
      the CRC of exactly the bytes the channel read, in order. */
  lemma {:induction false} SnifferFoldsReads(c: Chip, i: Chan, mode: Calc, job: Job, k: nat, ops: seq<DmaOp>)
    requires c.Valid() && OpsApply(ops, c.env) && Sniffs(c.dma, i, mode) && At(c.dma.ch[i], job, k)
    requires forall x :: 0 <= x < |ops| ==> ops[x].TickOp? || ops[x].PioOp?
    ensures RunOps(c, ops).dma.sniff.data == FoldBytes(mode, c.dma.sniff.data, BytesRead(c, i, job, k, ops))
    decreases ops
  {
    hide At, Tick, ServesRing, FoldBytes, ReadNow, Sniffs;
    if ops == [] {
      FoldNothing(mode, c.dma.sniff.data);
    } else {
      var c' := DoOp(c, ops[0]);
      OpsTail(ops, c.env, c'.env);
      if ops[0].TickOp? {
        TickAt(c, i, job, k);
        TickSniffs(c, i, mode, job, k);
        var k' := if ServesRing(c, [i]) then k + 1 else k;
        SnifferFoldsReads(c', i, mode, job, k', ops[1..]);
        FoldAppend(mode, c.dma.sniff.data, ReadNow(c, i, job, k), BytesRead(c', i, job, k', ops[1..]));
      } else {
        PioKeepsSniffs(c, c', i, mode);
        SnifferFoldsReads(c', i, mode, job, k, ops[1..]);
      }
    }
  }

  lemma PioKeepsSniffs(c: Chip, r: Chip, i: Chan, mode: Calc)
    requires Sniffs(c.dma, i, mode) && r.dma == c.dma
    ensures Sniffs(r.dma, i, mode)
  {
  }

  // ---- a copied block ----------------------------------------------------------------------

  /** The source bytes of elements `k` to `k + n` of the job. */
  function SourceBytes(m: Memory, job: Job, k: nat, n: nat): seq<Byte>
    decreases n
  {
    if n == 0 then [] else ElementBytes(m, job, k) + SourceBytes(m, job, k + 1, n - 1)
  }

  /** The copy reads the source as it was. */
  lemma ElementIntact(m0: Memory, m: Memory, job: Job, k: nat, total: nat, w: set<nat>)
    requires k < total && Apart(job, total) && Off(job, total, w) && Copied(m0, m, job, k, w)
    ensures ElementBytes(m, job, k) == ElementBytes(m0, job, k)
  {
    hide Cursor, Copied, Apart, Off, Peek, PeekBytes;
    var n := Bytes(job.ctrl.size);
    forall j: nat | j < n
      ensures ElementBytes(m, job, k)[j] == ElementBytes(m0, job, k)[j]
    {
      PeekBytesAt(m, job.SrcAt(k), n, j);
      PeekBytesAt(m0, job.SrcAt(k), n, j);
      SourceIntact(m0, m, job, k, total, j, w);
    }
  }

  lemma TickReadsSource(c: Chip, i: Chan, job: Job, total: nat, k: nat, m0: Memory, w: set<nat>)
    requires c.Valid() && Apart(job, total) && Off(job, total, w) && Works(c.dma, i, total, k) && Copied(m0, c.mem, job, k, w)
    ensures ReadNow(c, i, job, k) == if ServesRing(c, [i]) then ElementBytes(m0, job, k) else []
  {
    if ServesRing(c, [i]) {
      ServedHasWork(c, i, total, k);
      hide Works, Apart, Off, Copied, ElementBytes, ServesRing;
      ElementIntact(m0, c.mem, job, k, total, w);
    }
  }

  lemma ServedHasWork(c: Chip, i: Chan, total: nat, k: nat)
    requires c.Valid() && ServesRing(c, [i]) && Works(c.dma, i, total, k)
    ensures k < total
  {
    hide TimersTick, TreqReady, CanRead, CanWrite;
    assert Choice(TickTimers(c)) == Some(i);
  }

  lemma {:induction false} CopyReadsSource(c: Chip, i: Chan, job: Job, total: nat, k: nat, m0: Memory, w: set<nat>, ops: seq<DmaOp>)
    requires c.Valid() && OpsApply(ops, c.env) && Linear(job) && Apart(job, total)
    requires At(c.dma.ch[i], job, k) && Works(c.dma, i, total, k) && Copied(m0, c.mem, job, k, w)
    requires forall x :: 0 <= x < |ops| ==> ops[x].TickOp? || ops[x].PioOp?
    requires Off(job, total, w + OthersWrite(c, i, ops))
    ensures BytesRead(c, i, job, k, ops) == SourceBytes(m0, job, k, RingServes(c, [i], ops))
    decreases ops
  {
    hide At, Tick, ServesRing, Copied, Works, Apart, Off, Linear, ReadNow, ElementBytes, OthersNow;
    if ops != [] {
      var c' := DoOp(c, ops[0]);
      OpsTail(ops, c.env, c'.env);
      if ops[0].TickOp? {
        var w' := w + OthersNow(c, i);
        assert w + OthersWrite(c, i, ops) == w' + OthersWrite(c', i, ops[1..]);
        OffLess(job, total, w + OthersWrite(c, i, ops), w);
        OffLess(job, total, w + OthersWrite(c, i, ops), w');
        TickAt(c, i, job, k);
        TickCopies(c, i, job, total, k, m0, w);
        TickReadsSource(c, i, job, total, k, m0, w);
        CopyReadsSource(c', i, job, total, if ServesRing(c, [i]) then k + 1 else k, m0, w', ops[1..]);
      } else {
        assert OthersWrite(c, i, ops) == OthersWrite(c', i, ops[1..]);
        CopyReadsSource(c', i, job, total, k, m0, w, ops[1..]);
      }
    }
  }

  lemma {:induction false} PeekAppend(m: Memory, a: nat, x: nat, y: nat)
    ensures PeekBytes(m, a, x + y) == PeekBytes(m, a, x) + PeekBytes(m, a + x, y)
    decreases y
  {
    hide Peek;
    if y > 0 { PeekAppend(m, a, x, y - 1); }
  }

  /** A linear source is read byte after byte. */
  lemma {:induction false} LinearSource(m: Memory, job: Job, k: nat, n: nat)
    requires job.ctrl.incrRead && job.ctrl.ringSize == 0
    ensures SourceBytes(m, job, k, n) == PeekBytes(m, job.src + k * Bytes(job.ctrl.size), n * Bytes(job.ctrl.size))
    decreases n
  {
    var b := Bytes(job.ctrl.size);
    if n > 0 {
      LinearSource(m, job, k + 1, n - 1);
      assert (k + 1) * b == k * b + b && n * b == b + (n - 1) * b;
      hide PeekBytes;
      PeekAppend(m, job.src + k * b, b, (n - 1) * b);
    }
  }

  /** The length of `n` elements in bytes. */
  function Extent(job: Job, n: nat): nat {
    n * Bytes(job.ctrl.size)
  }

  /** A sniffed copy of a block: whatever the element size, pacing and run, and
      whatever other channels do elsewhere, after k elements the accumulator is the
      CRC of the first k elements' source bytes. */
  lemma SniffedCopy(c: Chip, i: Chan, mode: Calc, job: Job, total: nat, ops: seq<DmaOp>)
    requires c.Valid() && OpsApply(ops, c.env) && Sniffs(c.dma, i, mode) && Linear(job) && Apart(job, total)
    requires job.ctrl.incrRead && job.ctrl.ringSize == 0
    requires At(c.dma.ch[i], job, 0) && Works(c.dma, i, total, 0) && Off(job, total, OthersWrite(c, i, ops))
    requires forall x :: 0 <= x < |ops| ==> ops[x].TickOp? || ops[x].PioOp?
    ensures RunOps(c, ops).dma.sniff.data ==
              FoldBytes(mode, c.dma.sniff.data, PeekBytes(c.mem, job.src, Extent(job, RingServes(c, [i], ops))))
  {
    hide *;
    CopiedNothing(c.mem, job);
    SnifferFoldsReads(c, i, mode, job, 0, ops);
    assert {} + OthersWrite(c, i, ops) == OthersWrite(c, i, ops);
    CopyReadsSource(c, i, job, total, 0, c.mem, {}, ops);
    FromTheStart(c.mem, job, RingServes(c, [i], ops));
  }

  lemma FromTheStart(m: Memory, job: Job, n: nat)
    requires job.ctrl.incrRead && job.ctrl.ringSize == 0
    ensures SourceBytes(m, job, 0, n) == PeekBytes(m, job.src, Extent(job, n))
  {
    hide SourceBytes, PeekBytes;
    LinearSource(m, job, 0, n);
  }
}
