/** Bounded waiting in DMA arbitration, and why it needs its side condition. */
module DmaFairness {
  import opened Options
  import opened Dma

  /** One arbitration: the seat and who is ready in each class. */
  datatype Round = Round(rr: nat, high: set<nat>, normal: set<nat>)

  predicate Ok(r: Round) {
    r.rr < CHANNELS
  }

  function Winner(r: Round): (w: Option<nat>)
    requires Ok(r)
    ensures w.Some? ==> w.value < CHANNELS
  {
    Arbitrate(r.rr, r.high, r.normal)
  }

  /** The seat after an arbitration: just past the winner, unmoved if idle. */
  function NextSeat(r: Round): (s: nat)
    requires Ok(r)
    ensures s < CHANNELS
  {
    if Winner(r).Some? then Seat(Winner(r).value, 1) else r.rr
  }

  /** Places channel `c` is behind the seat. */
  function Distance(rr: nat, c: nat): (d: nat)
    requires rr < CHANNELS && c < CHANNELS
    ensures d < CHANNELS && Seat(rr, d) == c
  {
    if c >= rr then c - rr else c + CHANNELS - rr
  }

  lemma DistanceUnique(rr: nat, d: nat)
    requires rr < CHANNELS && d < CHANNELS
    ensures Distance(rr, Seat(rr, d)) == d
  {
  }

  /** The pick is the nearest ready channel. */
  lemma {:induction false} PickNearest(rr: nat, ready: set<nat>, i: nat, c: nat)
    requires rr < CHANNELS && c < CHANNELS && c in ready && i <= Distance(rr, c)
    ensures var p := Pick(rr, ready, i);
            p.Some? && i <= Distance(rr, p.value) <= Distance(rr, c)
    decreases CHANNELS - i
  {
    DistanceUnique(rr, i);
    if Seat(rr, i) !in ready {
      assert i != Distance(rr, c);
      PickNearest(rr, ready, i + 1, c);
    }
  }

  lemma {:induction false} PickNone(rr: nat, i: nat)
    requires rr < CHANNELS && i <= CHANNELS
    ensures Pick(rr, {}, i) == None
    decreases CHANNELS - i
  {
    if i < CHANNELS { PickNone(rr, i + 1); }
  }

  /** Serving somebody nearer brings the seat strictly closer. */
  lemma SeatApproaches(rr: nat, w: nat, c: nat)
    requires rr < CHANNELS && w < CHANNELS && c < CHANNELS && w != c && Distance(rr, w) <= Distance(rr, c)
    ensures Distance(Seat(w, 1), c) < Distance(rr, c)
  {
  }

  /** The channel waits in the class the arbiter looks at first among the ready:
      high priority, or normal while no high-priority channel is ready. */
  predicate Contends(r: Round, c: nat) {
    c < CHANNELS && (c in r.high || (r.high == {} && c in r.normal))
  }

  lemma RoundProgress(r: Round, c: nat)
    requires Ok(r) && Contends(r, c)
    ensures Winner(r).Some?
    ensures Winner(r) != Some(c) ==> Distance(NextSeat(r), c) < Distance(r.rr, c)
  {
    if c in r.high {
      PickNearest(r.rr, r.high, 0, c);
    } else {
      PickNone(r.rr, 0);
      PickNearest(r.rr, r.normal, 0, c);
    }
    var w := Winner(r).value;
    if w != c { SeatApproaches(r.rr, w, c); }
  }

  /** Consecutive arbitrations; anything but the seat may change in between. */
  predicate Linked(rs: seq<Round>) {
    && (forall k :: 0 <= k < |rs| ==> Ok(rs[k]))
    && (forall k :: 0 < k < |rs| ==> rs[k].rr == NextSeat(rs[k - 1]))
  }

  lemma {:induction false} ServedWithin(rs: seq<Round>, c: nat)
    requires Linked(rs) && c < CHANNELS && |rs| > 0
    requires forall k :: 0 <= k < |rs| ==> Contends(rs[k], c)
    requires Distance(rs[0].rr, c) < |rs|
    ensures exists k :: 0 <= k <= Distance(rs[0].rr, c) && k < |rs| && Winner(rs[k]) == Some(c)
    decreases |rs|
  {
    hide Winner, NextSeat, Contends;
    RoundProgress(rs[0], c);
    if Winner(rs[0]) != Some(c) {
      var d := Distance(rs[0].rr, c);
      assert |rs| > 1;
      var tail := rs[1..];
      assert tail[0].rr == NextSeat(rs[0]);
      assert forall k :: 0 < k < |tail| ==> tail[k].rr == NextSeat(tail[k - 1]) by {
        forall k | 0 < k < |tail|
          ensures tail[k].rr == NextSeat(tail[k - 1])
        {
          assert tail[k] == rs[k + 1] && tail[k - 1] == rs[k];
        }
      }
      ServedWithin(tail, c);
      var j :| 0 <= j <= Distance(tail[0].rr, c) && j < |tail| && Winner(tail[j]) == Some(c);
      assert Winner(rs[j + 1]) == Some(c);
    }
  }

  /** A channel that contends in every one of NUM_CHANNELS consecutive
      arbitrations wins one of them. */
  lemma BoundedWaiting(rs: seq<Round>, c: nat)
    requires Linked(rs) && |rs| == CHANNELS && c < CHANNELS
    requires forall k :: 0 <= k < |rs| ==> Contends(rs[k], c)
    ensures exists k :: 0 <= k < CHANNELS && Winner(rs[k]) == Some(c)
  {
    ServedWithin(rs, c);
  }

  /** What the controller arbitrates on, once its timers have ticked. */
  function RoundOf(c: Chip): (r: Round)
    requires c.Valid()
    ensures Ok(r)
  {
    Round(c.dma.rrNext, ReadyOf(c, true), ReadyOf(c, false))
  }

  /** A controller tick serves the round's winner and leaves the next seat. */
  lemma TickPlaysRound(c: Chip)
    requires c.Valid()
    ensures Tick(c).dma.rrNext == NextSeat(RoundOf(TickTimers(c)))
    ensures Choice(TickTimers(c)) == Winner(RoundOf(TickTimers(c)))
  {
    hide Transfer, Arbitrate, TimersTick, ReadyOf;
  }

  /** Every tick of a run: whatever the host and the PIO blocks do between ticks,
      a channel that is high priority and ready at every arbitration is served
      within NUM_CHANNELS ticks; so is a normal one while no high-priority
      channel is ready. */
  lemma ReadyChannelIsServed(chips: seq<Chip>, i: nat)
    requires |chips| == CHANNELS && i < CHANNELS
    requires forall k :: 0 <= k < |chips| ==> chips[k].Valid()
    requires forall k :: 0 < k < |chips| ==> chips[k].dma.rrNext == Tick(chips[k - 1]).dma.rrNext
    requires forall k :: 0 <= k < |chips| ==>
               var c := TickTimers(chips[k]);
               Ready(c, i) && (c.dma.ch[i].ctrl.high || ReadyOf(c, true) == {})
    ensures exists k :: 0 <= k < CHANNELS && Choice(TickTimers(chips[k])) == Some(i)
  {
    hide Tick, TickTimers, Winner, NextSeat, Choice, Ready;
    var rs := seq(CHANNELS, k requires 0 <= k < CHANNELS => RoundOf(TickTimers(chips[k])));
    forall k | 0 <= k < CHANNELS
      ensures Ok(rs[k]) && Contends(rs[k], i) && (k > 0 ==> rs[k].rr == NextSeat(rs[k - 1]))
    {
      var c := TickTimers(chips[k]);
      assert i in ReadyOf(c, c.dma.ch[i].ctrl.high);
      SeatBeforeTimers(chips[k]);
      if k > 0 { TickPlaysRound(chips[k - 1]); }
    }
    BoundedWaiting(rs, i);
    var k :| 0 <= k < CHANNELS && Winner(rs[k]) == Some(i);
    TickPlaysRound(chips[k]);
  }

  lemma SeatBeforeTimers(c: Chip)
    requires c.Valid()
    ensures TickTimers(c).dma.rrNext == c.dma.rrNext
  {
  }

  // ---- the exact condition -------------------------------------------------------------

  /** Rounds of a controller whose high-priority channels are `hs`, in which
      channel `c` bids every time. */
  ghost predicate Schedule(rs: seq<Round>, hs: set<nat>, c: nat) {
    && Linked(rs) && |rs| == CHANNELS
    && forall k :: 0 <= k < |rs| ==>
         rs[k].high <= hs && rs[k].normal !! hs && c in (if c in hs then rs[k].high else rs[k].normal)
  }

  ghost predicate Served(rs: seq<Round>, c: nat) {
    exists k :: 0 <= k < |rs| && Ok(rs[k]) && Winner(rs[k]) == Some(c)
  }

  /** The rounds in which channel `h` outbids `c` every time. */
  function Hogged(h: nat, c: nat, n: nat): (rs: seq<Round>)
    requires h < CHANNELS
    ensures |rs| == n && forall k :: 0 <= k < n ==> rs[k] == Round(Seat(h, 1), {h}, {c})
  {
    if n == 0 then [] else Hogged(h, c, n - 1) + [Round(Seat(h, 1), {h}, {c})]
  }

  lemma HoggedIsSchedule(h: nat, hs: set<nat>, c: nat)
    requires h < CHANNELS && h in hs && c !in hs
    ensures Schedule(Hogged(h, c, CHANNELS), hs, c) && !Served(Hogged(h, c, CHANNELS), c)
  {
    var r := Round(Seat(h, 1), {h}, {c});
    PickNearest(r.rr, {h}, 0, h);
    assert Winner(r) == Some(h);
    hide Winner;
  }

  /** A channel that bids at every arbitration is always served within CHANNELS
      rounds iff it is configured high priority or no channel is: the condition is
      read off the channel table before anything runs. */
  lemma WaitingBoundedIff(hs: set<nat>, c: nat)
    requires c < CHANNELS && forall h :: h in hs ==> h < CHANNELS
    ensures (forall rs :: Schedule(rs, hs, c) ==> Served(rs, c)) <==> (c in hs || hs == {})
  {
    if c in hs || hs == {} {
      forall rs | Schedule(rs, hs, c)
        ensures Served(rs, c)
      {
        BoundedWaiting(rs, c);
      }
    } else {
      var h :| h in hs;
      HoggedIsSchedule(h, hs, c);
    }
  }
}
