/** Evaluating assembler expressions: 64-bit arithmetic, labels, and defines that
    are resolved lazily, memoised, and checked for cycles. */
module Defines {
  import opened Options
  import opened Expr
  import ExprRoundTrip
  import ReverseWord

  // ---- 64-bit arithmetic ------------------------------------------------------------

  function Signed(v: bv64): int {
    if v >= 0x8000_0000_0000_0000 then v as int - 0x1_0000_0000_0000_0000 else v as int
  }

  function Wrapped(n: int): bv64 {
    (n % 0x1_0000_0000_0000_0000) as bv64
  }

  /** C's quotient, truncated toward zero. */
  function Quotient(a: int, b: int): int
    requires b != 0
  {
    var q := (if a < 0 then -a else a) / (if b < 0 then -b else b);
    if (a < 0) == (b < 0) then q else -q
  }

  /** Signed division; dividing by zero leaves the value and flags an error. */
  function Divided(a: bv64, b: bv64): (bv64, bool) {
    if Signed(b) == 0 then (a, false) else (Wrapped(Quotient(Signed(a), Signed(b))), true)
  }

  /** Shifts are unsigned and take counts 0 to 63. */
  function Shifted(a: bv64, n: int, left: bool): (bv64, bool) {
    if n < 0 || n > 63 then (0, false) else if left then (a << n, true) else (a >> n, true)
  }

  /** A binary operator on int64 values held as 64-bit words: the value the code
      goes on with, and whether the operation was legal. */
  function Compute(op: BinOp, a: bv64, b: bv64): (bv64, bool) {
    match op
    case BitAnd => (a & b, true)
    case BitOr => (a | b, true)
    case BitXor => (a ^ b, true)
    case Times => (a * b, true)
    case Plus => (a + b, true)
    case Minus => (a - b, true)
    case Over => Divided(a, b)
    case ShiftL => Shifted(a, Signed(b), true)
    case ShiftR => Shifted(a, Signed(b), false)
  }

  /** Unsigned wrap-around negation. */
  function Negated(v: bv64): bv64 { 0 - v }

  function Low32(v: bv64): bv32 { (v & 0xFFFF_FFFF) as bv32 }

  function Widen(v: bv32): bv64 { v as bv64 }

  /** `::`: reverse the low 32 bits. */
  function Reversed(v: bv64): bv64 { Widen(ReverseWord.Reverse32(Low32(v))) }

  function LiteralWord(lexeme: string): (bv64, bool) {
    var v := Literal(lexeme);
    if v.Some? then (v.value as bv64, true) else (0, false)
  }

  // ---- symbols --------------------------------------------------------------------------

  datatype Define = Define(name: string, text: string)
  datatype Label = Label(name: string, index: bv64)
  datatype Symbols = Symbols(defines: seq<Define>, labels: seq<Label>)

  /** The first define, from index `i` on, with this name. */
  function FindDefine(ds: seq<Define>, id: string, i: nat): (r: Option<nat>)
    requires i <= |ds|
    ensures r.Some? ==> r.value < |ds| && ds[r.value].name == id
    decreases |ds| - i
  {
    if i == |ds| then None else if ds[i].name == id then Some(i) else FindDefine(ds, id, i + 1)
  }

  function FindLabel(ls: seq<Label>, id: string, i: nat): Option<bv64>
    requires i <= |ls|
    decreases |ls| - i
  {
    if i == |ls| then None else if ls[i].name == id then Some(ls[i].index) else FindLabel(ls, id, i + 1)
  }

  /** What the code keeps per define: the on-stack flag and the memoised value. */
  datatype Memo = Memo(visiting: seq<bool>, value: seq<Option<bv32>>) {
    predicate Fits(sy: Symbols) { |visiting| == |value| == |sy.defines| }
  }

  function Unvisited(vs: seq<bool>): nat {
    if vs == [] then 0 else Unvisited(vs[..|vs| - 1]) + if vs[|vs| - 1] then 0 else 1
  }

  lemma {:induction false} VisitCounts(vs: seq<bool>, i: nat)
    requires i < |vs| && !vs[i]
    ensures Unvisited(vs[i := true]) + 1 == Unvisited(vs)
  {
    var n := |vs| - 1;
    if i < n {
      VisitCounts(vs[..n], i);
      assert vs[i := true][..n] == vs[..n][i := true];
    } else {
      assert vs[i := true][..n] == vs[..n];
    }
  }

  // ---- the memoising evaluator --------------------------------------------------------------

  datatype Out = Out(v: bv64, ok: bool, memo: Memo)
  datatype Out32 = Out32(v: bv32, ok: bool, memo: Memo)

  /** Evaluate a tree left to right; evaluation goes on after an error. */
  function Eval(sy: Symbols, e: Ast, m: Memo): (r: Out)
    requires m.Fits(sy)
    ensures r.memo.Fits(sy) && r.memo.visiting == m.visiting
    decreases Unvisited(m.visiting), 1, e
  {
    match e
    case Num(lexeme) => Out(LiteralWord(lexeme).0, LiteralWord(lexeme).1, m)
    case Name(id) => EvalName(sy, id, m)
    case Neg(x) => var r := Eval(sy, x, m); r.(v := Negated(r.v))
    case Rev(x) => var r := Eval(sy, x, m); r.(v := Reversed(r.v))
    case Bin(op, l, r) => EvalBin(sy, op, l, r, m)
    case Bad => Out(0, false, m)
  }

  function EvalBin(sy: Symbols, op: BinOp, l: Ast, r: Ast, m: Memo): (o: Out)
    requires m.Fits(sy)
    ensures o.memo.Fits(sy) && o.memo.visiting == m.visiting
    decreases Unvisited(m.visiting), 1, Bin(op, l, r), 0
  {
    var a := Eval(sy, l, m);
    var b := Eval(sy, r, a.memo);
    var c := Compute(op, a.v, b.v);
    Out(c.0, a.ok && b.ok && c.1, b.memo)
  }

  /** A name is a define first, then a label. */
  function EvalName(sy: Symbols, id: string, m: Memo): (r: Out)
    requires m.Fits(sy)
    ensures r.memo.Fits(sy) && r.memo.visiting == m.visiting
    decreases Unvisited(m.visiting), 0, 1
  {
    var d := FindDefine(sy.defines, id, 0);
    if d.Some? then
      var r := ResolveDefine(sy, d.value, m);
      Out(Widen(r.v), r.ok, r.memo)
    else
      var l := FindLabel(sy.labels, id, 0);
      if l.Some? then Out(l.value, true, m) else Out(0, false, m)
  }

  /** resolve_define_value. */
  function ResolveDefine(sy: Symbols, i: nat, m: Memo): (r: Out32)
    requires m.Fits(sy) && i < |sy.defines|
    ensures r.memo.Fits(sy) && r.memo.visiting == m.visiting
    decreases Unvisited(m.visiting), 0, 0
  {
    if m.value[i].Some? then Out32(m.value[i].value, true, m)
    else if m.visiting[i] then Out32(0, false, m)
    else
      VisitCounts(m.visiting, i);
      var r := ResolveText(sy, sy.defines[i].text, m.(visiting := m.visiting[i := true]));
      assert m.visiting[i := true][i := false] == m.visiting;
      var m' := r.memo.(visiting := r.memo.visiting[i := false]);
      if r.ok then Out32(r.v, true, m'.(value := m'.value[i := Some(r.v)])) else Out32(0, false, m')
  }

  /** resolve_uint. */
  function ResolveText(sy: Symbols, text: string, m: Memo): (r: Out32)
    requires m.Fits(sy)
    ensures r.memo.Fits(sy) && r.memo.visiting == m.visiting
    decreases Unvisited(m.visiting), 2
  {
    var p := ParseText(text);
    var r := Eval(sy, p.0, m);
    Out32(Low32(r.v), r.ok && p.1, r.memo)
  }

  // ---- the denotation: no memo, no stack ---------------------------------------------------------

  /** The value of a tree when defines may nest at most `n` deep. */
  function Denote(sy: Symbols, e: Ast, n: nat): Option<bv64>
    decreases n, 1, e
  {
    match e
    case Num(lexeme) => if LiteralWord(lexeme).1 then Some(LiteralWord(lexeme).0) else None
    case Name(id) =>
      var d := FindDefine(sy.defines, id, 0);
      if d.Some? then (var v := DefineValue(sy, d.value, n); if v.Some? then Some(Widen(v.value)) else None)
      else FindLabel(sy.labels, id, 0)
    case Neg(x) => var v := Denote(sy, x, n); if v.Some? then Some(Negated(v.value)) else None
    case Rev(x) => var v := Denote(sy, x, n); if v.Some? then Some(Reversed(v.value)) else None
    case Bin(op, l, r) =>
      var a, b := Denote(sy, l, n), Denote(sy, r, n);
      if a.Some? && b.Some? && Compute(op, a.value, b.value).1 then Some(Compute(op, a.value, b.value).0) else None
    case Bad => None
  }

  function DefineValue(sy: Symbols, i: nat, n: nat): Option<bv32>
    requires i < |sy.defines|
    decreases n, 0
  {
    if n == 0 then None else TextValue(sy, sy.defines[i].text, n - 1)
  }

  function TextValue(sy: Symbols, text: string, n: nat): Option<bv32>
    decreases n, 2
  {
    var p := ParseText(text);
    var v := Denote(sy, p.0, n);
    if p.1 && v.Some? then Some(Low32(v.value)) else None
  }

  /** More depth never changes a value. */
  lemma {:induction false} DenoteMore(sy: Symbols, e: Ast, n: nat, k: nat)
    requires Denote(sy, e, n).Some?
    ensures Denote(sy, e, n + k) == Denote(sy, e, n)
    decreases n, 1, e
  {
    hide Compute, LiteralWord, Negated, Reversed, Widen;
    match e
    case Name(id) =>
      var d := FindDefine(sy.defines, id, 0);
      if d.Some? { DefineMore(sy, d.value, n, k); }
    case Neg(x) => DenoteMore(sy, x, n, k);
    case Rev(x) => DenoteMore(sy, x, n, k);
    case Bin(op, l, r) => DenoteMore(sy, l, n, k); DenoteMore(sy, r, n, k);
    case _ =>
  }

  lemma {:induction false} DefineMore(sy: Symbols, i: nat, n: nat, k: nat)
    requires i < |sy.defines| && DefineValue(sy, i, n).Some?
    ensures DefineValue(sy, i, n + k) == DefineValue(sy, i, n)
    decreases n, 0
  {
    hide Low32;
    DenoteMore(sy, ParseText(sy.defines[i].text).0, n - 1, k);
  }

  /** Two depths that both give a value give the same. */
  lemma DefineUnique(sy: Symbols, i: nat, n: nat, k: nat)
    requires i < |sy.defines| && DefineValue(sy, i, n).Some? && DefineValue(sy, i, k).Some?
    ensures DefineValue(sy, i, n) == DefineValue(sy, i, k)
  {
    hide DefineValue;
    if n <= k { DefineMore(sy, i, n, k - n); } else { DefineMore(sy, i, k, n - k); }
  }

  /** The least depth at which a define has a value. */
  lemma {:induction false} LeastDepth(sy: Symbols, i: nat, n: nat) returns (k: nat)
    requires i < |sy.defines| && DefineValue(sy, i, n).Some?
    ensures 0 < k <= n && DefineValue(sy, i, k).Some? && DefineValue(sy, i, k - 1).None?
    decreases n
  {
    if DefineValue(sy, i, n - 1).None? { k := n; } else { k := LeastDepth(sy, i, n - 1); }
  }

  ghost predicate HasValue(sy: Symbols, text: string) {
    exists n: nat :: TextValue(sy, text, n).Some?
  }

  lemma ValueWitness(sy: Symbols, text: string, n: nat)
    requires ParseText(text).1 && Denote(sy, ParseText(text).0, n).Some?
    ensures HasValue(sy, text)
  {
    assert TextValue(sy, text, n).Some?;
  }

  // ---- memoised = denoted --------------------------------------------------------------------------

  ghost predicate Stands(sy: Symbols, i: nat, v: bv32)
    requires i < |sy.defines|
  {
    exists n: nat :: DefineValue(sy, i, n) == Some(v)
  }

  /** resolved ==> value correct. */
  ghost predicate Correct(sy: Symbols, m: Memo)
    requires m.Fits(sy)
  {
    forall i :: 0 <= i < |sy.defines| && m.value[i].Some? ==> Stands(sy, i, m.value[i].value)
  }

  /** Everything on the stack is deeper than `n`. */
  ghost predicate Deeper(sy: Symbols, m: Memo, n: nat)
    requires m.Fits(sy)
  {
    forall i :: 0 <= i < |sy.defines| && m.visiting[i] ==> DefineValue(sy, i, n).None?
  }

  /** Soundness: whatever the memo holds, evaluation keeps it correct, and a value
      it delivers is the denotation. */
  lemma {:induction false} EvalSound(sy: Symbols, e: Ast, m: Memo)
    requires m.Fits(sy) && Correct(sy, m)
    ensures Correct(sy, Eval(sy, e, m).memo)
    ensures Eval(sy, e, m).ok ==> exists n: nat :: Denote(sy, e, n) == Some(Eval(sy, e, m).v)
    decreases Unvisited(m.visiting), 1, e
  {
    hide Correct, Compute, LiteralWord, Negated, Reversed, Widen, Unvisited, DefineValue, ResolveDefine;
    match e
    case Num(lexeme) => assert LiteralWord(lexeme).1 ==> Denote(sy, e, 0) == Some(LiteralWord(lexeme).0);
    case Name(id) =>
      var d := FindDefine(sy.defines, id, 0);
      if d.Some? {
        DefineSound(sy, d.value, m);
        var r := ResolveDefine(sy, d.value, m);
        if r.ok {
          var n: nat :| DefineValue(sy, d.value, n) == Some(r.v);
          assert Denote(sy, e, n) == Some(Widen(r.v));
        }
      } else {
        assert Denote(sy, e, 0) == FindLabel(sy.labels, id, 0);
      }
    case Neg(x) =>
      EvalSound(sy, x, m);
      var r := Eval(sy, x, m);
      if r.ok { var n: nat :| Denote(sy, x, n) == Some(r.v); assert Denote(sy, e, n) == Some(Negated(r.v)); }
    case Rev(x) =>
      EvalSound(sy, x, m);
      var r := Eval(sy, x, m);
      if r.ok { var n: nat :| Denote(sy, x, n) == Some(r.v); assert Denote(sy, e, n) == Some(Reversed(r.v)); }
    case Bin(op, l, r) => BinSound(sy, op, l, r, m);
    case Bad =>
  }

  lemma {:induction false} BinSound(sy: Symbols, op: BinOp, l: Ast, r: Ast, m: Memo)
    requires m.Fits(sy) && Correct(sy, m)
    ensures Correct(sy, Eval(sy, Bin(op, l, r), m).memo)
    ensures var o := Eval(sy, Bin(op, l, r), m); o.ok ==> exists n: nat :: Denote(sy, Bin(op, l, r), n) == Some(o.v)
    decreases Unvisited(m.visiting), 1, Bin(op, l, r), 0
  {
    hide Correct, Compute, Unvisited;
    EvalSound(sy, l, m);
    var a := Eval(sy, l, m);
    EvalSound(sy, r, a.memo);
    var b := Eval(sy, r, a.memo);
    if a.ok && b.ok && Compute(op, a.v, b.v).1 {
      var n: nat :| Denote(sy, l, n) == Some(a.v);
      var k: nat :| Denote(sy, r, k) == Some(b.v);
      DenoteMore(sy, l, n, k);
      DenoteMore(sy, r, k, n);
      assert k + n == n + k;
      assert Denote(sy, Bin(op, l, r), n + k) == Some(Compute(op, a.v, b.v).0);
    }
  }

  lemma {:induction false} DefineSound(sy: Symbols, i: nat, m: Memo)
    requires m.Fits(sy) && i < |sy.defines| && Correct(sy, m)
    ensures Correct(sy, ResolveDefine(sy, i, m).memo)
    ensures ResolveDefine(sy, i, m).ok ==> exists n: nat :: DefineValue(sy, i, n) == Some(ResolveDefine(sy, i, m).v)
    decreases Unvisited(m.visiting), 0
  {
    if m.value[i].None? && !m.visiting[i] {
      VisitCounts(m.visiting, i);
      hide Eval, Denote, Unvisited;
      var m1 := m.(visiting := m.visiting[i := true]);
      var p := ParseText(sy.defines[i].text);
      EvalSound(sy, p.0, m1);
      var o := Eval(sy, p.0, m1);
      if o.ok && p.1 {
        var n: nat :| Denote(sy, p.0, n) == Some(o.v);
        assert DefineValue(sy, i, n + 1) == Some(Low32(o.v));
        assert Stands(sy, i, Low32(o.v));
      }
    }
  }

  lemma DeeperStill(sy: Symbols, m: Memo, n: nat, k: nat)
    requires m.Fits(sy) && Deeper(sy, m, n) && k <= n
    ensures Deeper(sy, m, k)
  {
    hide DefineValue;
    forall i | 0 <= i < |sy.defines| && m.visiting[i]
      ensures DefineValue(sy, i, k).None?
    {
      if DefineValue(sy, i, k).Some? { DefineMore(sy, i, k, n - k); }
    }
  }

  /** Completeness: a tree with a value at depth `n` evaluates to it, as long as
      nothing it needs is on the stack. */
  lemma {:induction false} EvalComplete(sy: Symbols, e: Ast, m: Memo, n: nat)
    requires m.Fits(sy) && Correct(sy, m) && Deeper(sy, m, n) && Denote(sy, e, n).Some?
    ensures Eval(sy, e, m).ok && Eval(sy, e, m).v == Denote(sy, e, n).value
    decreases n, 1, e
  {
    hide Correct, Deeper, Compute, LiteralWord, Negated, Reversed, Widen, Unvisited, DefineValue, ResolveDefine;
    match e
    case Name(id) =>
      var d := FindDefine(sy.defines, id, 0);
      if d.Some? { DefineComplete(sy, d.value, m, n); }
    case Neg(x) => EvalComplete(sy, x, m, n);
    case Rev(x) => EvalComplete(sy, x, m, n);
    case Bin(op, l, r) =>
      EvalComplete(sy, l, m, n);
      EvalSound(sy, l, m);
      var a := Eval(sy, l, m);
      SameStack(sy, m, a.memo, n);
      EvalComplete(sy, r, a.memo, n);
    case _ =>
  }

  lemma SameStack(sy: Symbols, m: Memo, m': Memo, n: nat)
    requires m.Fits(sy) && m'.Fits(sy) && m'.visiting == m.visiting && Deeper(sy, m, n)
    ensures Deeper(sy, m', n)
  {
    hide DefineValue;
  }

  lemma {:induction false} DefineComplete(sy: Symbols, i: nat, m: Memo, n: nat)
    requires m.Fits(sy) && i < |sy.defines| && Correct(sy, m) && Deeper(sy, m, n) && DefineValue(sy, i, n).Some?
    ensures ResolveDefine(sy, i, m).ok && ResolveDefine(sy, i, m).v == DefineValue(sy, i, n).value
    decreases n, 0, 1
  {
    if m.value[i].Some? {
      assert Stands(sy, i, m.value[i].value);
      hide DefineValue;
      var k: nat :| DefineValue(sy, i, k) == Some(m.value[i].value);
      DefineUnique(sy, i, n, k);
    } else {
      var k := LeastDepth(sy, i, n);
      DefineUnique(sy, i, n, k);
      PushComplete(sy, i, m, n, k);
    }
  }

  /** Resolving a define afresh, at its least depth. */
  lemma {:induction false} PushComplete(sy: Symbols, i: nat, m: Memo, n: nat, k: nat)
    requires m.Fits(sy) && i < |sy.defines| && Correct(sy, m) && Deeper(sy, m, n) && m.value[i].None?
    requires 0 < k <= n && DefineValue(sy, i, k).Some? && DefineValue(sy, i, k - 1).None? && DefineValue(sy, i, n).Some?
    ensures ResolveDefine(sy, i, m).ok && ResolveDefine(sy, i, m).v == DefineValue(sy, i, k).value
    decreases k, 0, 0
  {
    hide Eval, Denote, Unvisited, Low32;
    var m1 := m.(visiting := m.visiting[i := true]);
    DeeperStill(sy, m, n, k - 1);
    assert Deeper(sy, m1, k - 1) by { hide DefineValue; }
    EvalComplete(sy, ParseText(sy.defines[i].text).0, m1, k - 1);
  }

  /** With nothing on the stack, resolution of any text over any define table
      succeeds exactly when the text has a denotation, with that value; the memo
      stays correct and every on-stack flag is restored. */
  lemma ResolveIsDenotation(sy: Symbols, text: string, m: Memo)
    requires m.Fits(sy) && Correct(sy, m) && forall i :: 0 <= i < |m.visiting| ==> !m.visiting[i]
    ensures var r := ResolveText(sy, text, m);
            && (r.ok <==> HasValue(sy, text))
            && (forall n: nat :: TextValue(sy, text, n).Some? ==> r.ok && r.v == TextValue(sy, text, n).value)
            && Correct(sy, r.memo) && r.memo.visiting == m.visiting
  {
    hide Eval, Denote, Low32, Correct;
    var p := ParseText(text);
    EvalSound(sy, p.0, m);
    var o := Eval(sy, p.0, m);
    if o.ok && p.1 {
      var n: nat :| Denote(sy, p.0, n) == Some(o.v);
      ValueWitness(sy, text, n);
    }
    forall n: nat | TextValue(sy, text, n).Some?
      ensures ResolveText(sy, text, m).ok && ResolveText(sy, text, m).v == TextValue(sy, text, n).value
    {
      EvalComplete(sy, p.0, m, n);
    }
  }

  // ---- what has no denotation ---------------------------------------------------------------------------

  predicate Mentions(e: Ast, id: string) {
    match e
    case Name(x) => x == id
    case Neg(x) => Mentions(x, id)
    case Rev(x) => Mentions(x, id)
    case Bin(_, l, r) => Mentions(l, id) || Mentions(r, id)
    case _ => false
  }

  /** A tree with a value has a value for everything it mentions, at that depth. */
  lemma {:induction false} MentionsDenote(sy: Symbols, e: Ast, n: nat, id: string)
    requires Denote(sy, e, n).Some? && Mentions(e, id)
    ensures Denote(sy, Name(id), n).Some?
    decreases e
  {
    hide Compute, LiteralWord, Negated, Reversed, Widen, DefineValue;
    match e
    case Neg(x) => MentionsDenote(sy, x, n, id);
    case Rev(x) => MentionsDenote(sy, x, n, id);
    case Bin(op, l, r) => if Mentions(l, id) { MentionsDenote(sy, l, n, id); } else { MentionsDenote(sy, r, n, id); }
    case _ =>
  }

  /** The text of define `i` mentions define `j`. */
  ghost predicate RefersTo(sy: Symbols, i: nat, j: nat)
    requires i < |sy.defines| && j < |sy.defines|
  {
    exists id :: Mentions(ParseText(sy.defines[i].text).0, id) && FindDefine(sy.defines, id, 0) == Some(j)
  }

  /** References go strictly down in depth. */
  lemma ReferenceIsShallower(sy: Symbols, i: nat, j: nat, n: nat)
    requires i < |sy.defines| && j < |sy.defines| && RefersTo(sy, i, j) && DefineValue(sy, i, n).Some?
    ensures n > 0 && DefineValue(sy, j, n - 1).Some?
  {
    var e := ParseText(sy.defines[i].text).0;
    var id :| Mentions(e, id) && FindDefine(sy.defines, id, 0) == Some(j);
    MentionsDenote(sy, e, n - 1, id);
  }

  /** `path` follows references from define to define. */
  ghost predicate RefPath(sy: Symbols, path: seq<nat>) {
    && (forall p :: 0 <= p < |path| ==> path[p] < |sy.defines|)
    && (forall p :: 0 <= p < |path| - 1 ==> RefersTo(sy, path[p], path[p + 1]))
  }

  lemma {:induction false} PathDescends(sy: Symbols, path: seq<nat>, n: nat)
    requires RefPath(sy, path) && path != [] && DefineValue(sy, path[0], n).Some?
    ensures n >= |path| - 1 && DefineValue(sy, path[|path| - 1], n - (|path| - 1)).Some?
    decreases |path|
  {
    hide DefineValue, RefersTo;
    if |path| > 1 {
      assert RefersTo(sy, path[0], path[0 + 1]);
      ReferenceIsShallower(sy, path[0], path[1], n);
      PathDescends(sy, path[1..], n - 1);
    }
  }

  /** A define on a reference cycle has no value at any depth. */
  lemma CyclicHasNoValue(sy: Symbols, path: seq<nat>, n: nat)
    requires RefPath(sy, path) && |path| >= 2 && path[|path| - 1] == path[0]
    ensures DefineValue(sy, path[0], n).None?
    decreases n
  {
    hide DefineValue, RefersTo;
    if DefineValue(sy, path[0], n).Some? {
      PathDescends(sy, path, n);
      CyclicHasNoValue(sy, path, n - (|path| - 1));
    }
  }

  // ---- printed expressions --------------------------------------------------------------------------------

  /** Resolving the printed text of a tree yields the tree's 64-bit value truncated
      to 32 bits. */
  lemma PrintedValue(sy: Symbols, e: Ast, m: Memo)
    requires Good(e) && Nesting(e, 0, false) <= MAX_DEPTH && m.Fits(sy)
    ensures var o := Eval(sy, e, m);
            ResolveText(sy, Print(e, 0, false), m) == Out32(Low32(o.v), o.ok, o.memo)
  {
    hide Eval, Print, Nesting, Low32;
    ExprRoundTrip.PrintThenParse(e);
  }

  /** Division truncates toward zero: the remainder is smaller than the divisor and
      has the dividend's sign. */
  lemma QuotientTruncates(a: int, b: int)
    requires b != 0
    ensures var r := a - Quotient(a, b) * b;
            (if a < 0 then 0 <= -r else 0 <= r) && (if r < 0 then -r else r) < (if b < 0 then -b else b)
  {
    var x, y := if a < 0 then -a else a, if b < 0 then -b else b;
    Divides(x, y);
    Signs(x / y, y);
  }

  lemma Divides(x: nat, y: nat)
    requires y > 0
    ensures 0 <= x - (x / y) * y < y
  {
  }

  lemma Signs(q: int, y: int)
    ensures (-q) * y == -(q * y) && q * (-y) == -(q * y) && (-q) * (-y) == q * y
  {
  }
}
