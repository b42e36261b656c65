/** The joinable TX/RX FIFO: an eight-slot ring whose capacity depends on the
    FIFO-join mode, and its refinement of a bounded queue. */
module FifoRing {
  import opened Bits

  const FIFO_MAX: nat := 8
  const FIFO_DEPTH: nat := 4

  /** `(base + i) % FIFO_MAX` for an index and a step inside the ring. */
  function Slot(base: nat, i: nat): (s: nat)
    requires base < FIFO_MAX && i <= FIFO_MAX
    ensures s < FIFO_MAX && s == (base + i) % FIFO_MAX
  {
    if base + i < FIFO_MAX then base + i else base + i - FIFO_MAX
  }

  datatype Fifo = Fifo(buf: seq<Word>, head: nat, tail: nat, count: nat, cap: nat) {
    predicate Valid() {
      && |buf| == FIFO_MAX
      && head < FIFO_MAX && tail < FIFO_MAX
      && count <= cap <= FIFO_MAX
      && head == Slot(tail, count)
    }

    /** The queued words, oldest first. */
    function Contents(): (q: seq<Word>)
      requires Valid()
      ensures |q| == count
    {
      seq(count, i requires 0 <= i < count => buf[Slot(tail, i)])
    }

    predicate Full() { count >= cap }

    predicate Empty() { count == 0 }

    /** fifo_push; the flag says whether the word was accepted. */
    function Push(v: Word): (r: (Fifo, bool))
      requires Valid()
      ensures r.0.Valid() && r.0.cap == cap
      ensures r.1 <==> |Contents()| < cap
      ensures r.0.Contents() == if r.1 then Contents() + [v] else Contents()
    {
      if count >= cap then (this, false)
      else
        var f := this.(buf := buf[head := v], head := Slot(head, 1), count := count + 1);
        PushContents(v);
        (f, true)
    }

    lemma PushContents(v: Word)
      requires Valid() && count < cap
      ensures var f := this.(buf := buf[head := v], head := Slot(head, 1), count := count + 1);
              f.Valid() && f.Contents() == Contents() + [v]
    {
      var f := this.(buf := buf[head := v], head := Slot(head, 1), count := count + 1);
      forall i | 0 <= i < count
        ensures f.Contents()[i] == Contents()[i]
      {
        assert Slot(tail, i) != head;
      }
    }

    /** fifo_pop; the popped word is meaningful only when the flag is set. */
    function Pop(): (r: (Fifo, Word, bool))
      requires Valid()
      ensures r.0.Valid() && r.0.cap == cap
      ensures r.2 <==> Contents() != []
      ensures if r.2 then Contents() == [r.1] + r.0.Contents() else r.0 == this && r.1 == ZERO
    {
      if count == 0 then (this, ZERO, false)
      else
        var f := this.(tail := Slot(tail, 1), count := count - 1);
        PopContents();
        (f, buf[tail], true)
    }

    lemma PopContents()
      requires Valid() && count > 0
      ensures var f := this.(tail := Slot(tail, 1), count := count - 1);
              f.Valid() && Contents() == [buf[tail]] + f.Contents()
    {
      var f := this.(tail := Slot(tail, 1), count := count - 1);
      forall i | 0 <= i < f.count
        ensures f.Contents()[i] == Contents()[i + 1]
      {
        assert Slot(f.tail, i) == Slot(tail, i + 1);
      }
    }

    /** fifo_clear: drop the contents, keep the capacity. */
    function Clear(): (f: Fifo)
      requires Valid()
      ensures f.Valid() && f.cap == cap && f.Contents() == []
    {
      this.(head := 0, tail := 0, count := 0)
    }
  }

  /** The mutable ring itself. */
  class Ring {
    const buf: array<Word>
    var head: nat
    var tail: nat
    var count: nat
    var cap: nat

    ghost function View(): Fifo
      reads this, buf
    {
      Fifo(buf[..], head, tail, count, cap)
    }

    ghost predicate Valid()
      reads this, buf
    {
      View().Valid()
    }

    constructor (capacity: nat)
      requires capacity <= FIFO_MAX
      ensures Valid() && View().Contents() == [] && cap == capacity && fresh(buf)
    {
      buf := new Word[FIFO_MAX](_ => ZERO);
      head, tail, count, cap := 0, 0, 0, capacity;
    }

    /** A ring that holds what `f` holds. */
    constructor Of(f: Fifo)
      requires f.Valid()
      ensures View() == f && fresh(buf)
    {
      buf := new Word[FIFO_MAX](i requires 0 <= i < FIFO_MAX => f.buf[i]);
      head, tail, count, cap := f.head, f.tail, f.count, f.cap;
      new;
      assert buf[..] == f.buf;
    }

    predicate Full() reads this { count >= cap }

    predicate Empty() reads this { count == 0 }

    /** A register-file write: one slot, whatever the cursors say. */
    method Store(i: nat, v: Word)
      requires Valid() && i < FIFO_MAX
      modifies buf
      ensures View() == old(View()).(buf := old(View()).buf[i := v])
    {
      buf[i] := v;
    }

    method Push(v: Word) returns (ok: bool)
      requires Valid()
      modifies this, buf
      ensures Valid() && View() == old(View()).Push(v).0 && ok == old(View()).Push(v).1
    {
      if count >= cap {
        return false;
      }
      buf[head] := v;
      head := Slot(head, 1);
      count := count + 1;
      ok := true;
      assert View() == old(View()).Push(v).0;
    }

    method Pop() returns (v: Word, ok: bool)
      requires Valid()
      modifies this
      ensures Valid() && (View(), v, ok) == old(View()).Pop()
    {
      if count == 0 {
        return ZERO, false;
      }
      v := buf[tail];
      tail := Slot(tail, 1);
      count := count - 1;
      ok := true;
    }
  }

  datatype FifoOp = PushOp(v: Word) | PopOp | ClearOp

  datatype Reply = Accepted | Refused | Popped(v: Word)

  /** One operation on the ring, with what the caller sees. */
  function RingStep(f: Fifo, op: FifoOp): (r: (Fifo, Reply))
    requires f.Valid()
    ensures r.0.Valid() && r.0.cap == f.cap
  {
    match op
    case PushOp(v) => var (g, ok) := f.Push(v); (g, if ok then Accepted else Refused)
    case PopOp => var (g, v, ok) := f.Pop(); (g, if ok then Popped(v) else Refused)
    case ClearOp => (f.Clear(), Accepted)
  }

  /** The same operation on a queue that refuses to grow past `cap`. */
  function QueueStep(q: seq<Word>, cap: nat, op: FifoOp): (seq<Word>, Reply) {
    match op
    case PushOp(v) => if |q| < cap then (q + [v], Accepted) else (q, Refused)
    case PopOp => if q == [] then (q, Refused) else (q[1..], Popped(q[0]))
    case ClearOp => ([], Accepted)
  }

  function RingRun(f: Fifo, ops: seq<FifoOp>): (seq<Reply>, Fifo)
    requires f.Valid()
    decreases ops
  {
    if ops == [] then ([], f)
    else
      var (g, reply) := RingStep(f, ops[0]);
      var (rest, final) := RingRun(g, ops[1..]);
      ([reply] + rest, final)
  }

  function QueueRun(q: seq<Word>, cap: nat, ops: seq<FifoOp>): (seq<Reply>, seq<Word>)
    decreases ops
  {
    if ops == [] then ([], q)
    else
      var (q', reply) := QueueStep(q, cap, ops[0]);
      var (rest, final) := QueueRun(q', cap, ops[1..]);
      ([reply] + rest, final)
  }

  /** Over every run, the ring answers exactly as a bounded queue does. */
  lemma {:induction false} RingRefinesQueue(f: Fifo, ops: seq<FifoOp>)
    requires f.Valid()
    ensures RingRun(f, ops).1.Valid()
    ensures RingRun(f, ops).0 == QueueRun(f.Contents(), f.cap, ops).0
    ensures RingRun(f, ops).1.Contents() == QueueRun(f.Contents(), f.cap, ops).1
    decreases ops
  {
    if ops != [] {
      var (g, reply) := RingStep(f, ops[0]);
      assert (g.Contents(), reply) == QueueStep(f.Contents(), f.cap, ops[0]);
      RingRefinesQueue(g, ops[1..]);
    }
  }
}
