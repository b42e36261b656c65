/** WAIT on a pin: over every run the machine stays parked exactly until one of its
    own cycles samples the wanted level. */
module WaitPin {
  import opened Isa
  import opened Machine
  import opened Runs
  import opened Handshake

  /** The level a pin WAIT looks at, as sampled now; a PIN index beyond the IN pin
      count reads low. */
  predicate PinLevel(e: Env, h: nat, op: Op)
    requires Has(e, h) && op.Wait?
  {
    var cfg := e.sm[h].cfg;
    if op.source == 0 then InputPin(e, h, op.index)
    else if op.source == 1 then op.index < cfg.inCount && InputPin(e, h, cfg.inBase + op.index)
    else InputPin(e, h, cfg.jmpPin + op.index)
  }

  /** State machine `h` is at the pin WAIT `op`, with no delay running. */
  ghost predicate Waits(w: World, h: nat, op: Op) {
    && InWorld(w, h) && op.Wait? && op.source != 2 && op.source < 4 && op.polarity < 2
    && Decode(Presented(w, h)) == op && w.env.sm[h].delay == 0
  }

  /** A cycle of `h` now would find the level it waits for. */
  predicate Sees(w: World, h: nat, op: Op)
    requires InWorld(w, h) && op.Wait?
  {
    PinLevel(w.env, h, op) == (op.polarity == 1)
  }

  lemma WaitStalls(e: Env, h: nat, op: Op)
    requires Has(e, h) && Encodable(op) && op.Wait? && op.source != 2
    ensures ExecOp(e, h, op).stalled <==> PinLevel(e, h, op) != (op.polarity == 1)
    ensures SameSlot(e.sm[h], ExecOp(e, h, op).env.sm[h])
  {
    hide InputPin;
  }

  lemma PoisedLevel(e: Env, h: nat, op: Op)
    requires Has(e, h) && op.Wait?
    ensures PinLevel(PutSm(e, h, Poised(e.sm[h])), h, op) == PinLevel(e, h, op)
  {
    hide Poised;
  }

  /** A cycle at the WAIT: it stalls exactly while the level is not the wanted one. */
  lemma CycleAtWait(w: World, act: Act, h: nat, op: Op)
    requires Waits(w, h, op) && Presents(w, act, h)
    ensures Do(w, act).env.sm[h].stalled <==> !Sees(w, h, op)
    ensures !Sees(w, h, op) ==> Waits(Do(w, act), h, op) && Do(w, act).flow[h] == w.flow[h]
  {
    hide Do, Decode, Poised, ExecOp, PinLevel;
    PresentedCycle(w, act, h);
    PoisedLevel(w.env, h, op);
    WaitStalls(PutSm(w.env, h, Poised(w.env.sm[h])), h, op);
    if !Sees(w, h, op) { StallRepeats(w, act, h); }
  }

  /** Any other act leaves it at the WAIT. */
  lemma OtherActAtWait(w: World, act: Act, h: nat, op: Op)
    requires Waits(w, h, op) && Applies(act, w.env) && !Presents(w, act, h)
    ensures Waits(Do(w, act), h, op) && Do(w, act).flow[h] == w.flow[h]
  {
    hide Clock, DoEnv, Decode;
    DoKeepsCode(w, act, h / 4);
    if !act.ClockSm? {
      EnvActFrame(w.env, act, h);
    } else if act.g != h {
      OtherFlow(w, act.g, h);
    } else {
      IdleClock(w, h);
    }
  }

  /** No cycle of `h` in the run samples the wanted level. */
  ghost predicate NeverSees(w: World, acts: seq<Act>, h: nat, op: Op)
    requires InWorld(w, h) && op.Wait? && Runnable(acts, w.env)
    decreases acts
  {
    if acts == [] then true
    else
      RunnableTail(acts, w.env, Do(w, acts[0]).env);
      !(Presents(w, acts[0], h) && Sees(w, h, op)) && NeverSees(Do(w, acts[0]), acts[1..], h, op)
  }

  /** Until a cycle sees the level, the machine stays at the WAIT, through any ticks,
      host acts and traffic of the others. */
  lemma {:induction false} StaysUntilSeen(w: World, acts: seq<Act>, h: nat, op: Op)
    requires Waits(w, h, op) && Runnable(acts, w.env) && InWorld(w, h) && NeverSees(w, acts, h, op)
    ensures Waits(Run(w, acts), h, op) && Run(w, acts).flow[h] == w.flow[h]
    decreases acts
  {
    hide Do, Waits, Sees, Presents;
    if acts != [] {
      var v := Do(w, acts[0]);
      RunnableTail(acts, w.env, v.env);
      if Presents(w, acts[0], h) { CycleAtWait(w, acts[0], h, op); } else { OtherActAtWait(w, acts[0], h, op); }
      StaysUntilSeen(v, acts[1..], h, op);
    }
  }

  /** And the first cycle that sees it commits. */
  lemma ReleasedExactlyWhenSeen(w: World, acts: seq<Act>, act: Act, h: nat, op: Op)
    requires Waits(w, h, op) && Runnable(acts, w.env) && InWorld(w, h) && NeverSees(w, acts, h, op)
    requires InWorld(Run(w, acts), h) && Presents(Run(w, acts), act, h)
    ensures !Do(Run(w, acts), act).env.sm[h].stalled <==> Sees(Run(w, acts), h, op)
  {
    hide Do, Waits, Sees, Presents, Run, NeverSees;
    StaysUntilSeen(w, acts, h, op);
    CycleAtWait(Run(w, acts), act, h, op);
  }
}
