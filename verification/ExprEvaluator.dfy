/** The evaluator as the source runs it: a cursor with an `ok` flag and a depth
    counter, evaluating while it parses, over a define table updated in place. */
module ExprEvaluator {
  import opened Options
  import opened Expr
  import opened Defines

  // ---- parse_uint ---------------------------------------------------------------------

  lemma {:induction false} PrefixBounds(digits: string, base: nat, i: nat)
    requires i <= |digits| && base >= 1 && Positional(digits, base).Some?
    ensures Positional(digits[..i], base).Some?
    ensures Positional(digits[..i], base).value <= Positional(digits, base).value
    decreases |digits|
  {
    if i == |digits| {
      assert digits[..i] == digits;
    } else {
      var n := |digits| - 1;
      PrefixBounds(digits[..n], base, i);
      assert digits[..n][..i] == digits[..i];
      Grows(Positional(digits[..n], base).value, base);
      hide DigitOf;
    }
  }

  lemma Grows(h: nat, base: nat)
    requires base >= 1
    ensures h * base >= h
  {
  }

  /** parse_uint: digit by digit, refusing a literal before it would wrap. */
  method ParseUint(s: string) returns (out: Option<nat>)
    ensures out == Literal(s)
  {
    if s == "" { return None; }
    var base, digits := BaseOf(s), DigitsOf(s);
    if digits == "" { return None; }
    var v := 0;
    for i := 0 to |digits|
      invariant Positional(digits[..i], base) == Some(v) && v < 0x1_0000_0000
    {
      assert digits[..i + 1][..i] == digits[..i];
      var d := DigitOf(digits[i], base);
      if d.None? {
        if Positional(digits, base).Some? { PrefixBounds(digits, base, i + 1); }
        return None;
      }
      if v > (0xFFFF_FFFF - d.value) / base {
        OverflowMeans(v, d.value, base);
        if Positional(digits, base).Some? { PrefixBounds(digits, base, i + 1); }
        return None;
      }
      NoOverflowMeans(v, d.value, base);
      v := v * base + d.value;
    }
    assert digits[..|digits|] == digits;
    return Some(v);
  }

  lemma OverflowMeans(v: nat, d: nat, base: nat)
    requires base >= 1 && d <= 0xFFFF_FFFF && v > (0xFFFF_FFFF - d) / base
    ensures v * base + d >= 0x1_0000_0000
  {
    var m := 0xFFFF_FFFF - d;
    var q, r := m / base, m % base;
    assert m == q * base + r && r < base;
    assert v * base >= (q + 1) * base;
    assert (q + 1) * base == q * base + base;
  }

  lemma NoOverflowMeans(v: nat, d: nat, base: nat)
    requires base >= 1 && d <= 0xFFFF_FFFF && v <= (0xFFFF_FFFF - d) / base
    ensures v * base + d < 0x1_0000_0000
  {
    var m := 0xFFFF_FFFF - d;
    var q, r := m / base, m % base;
    assert m == q * base + r && 0 <= r;
    assert v * base <= q * base;
  }

  // ---- the evaluator ---------------------------------------------------------------------

  /** The symbol tables; `memo` holds each define's visiting flag and value. */
  class Context {
    const sy: Symbols
    var memo: Memo

    ghost predicate Valid() reads this { memo.Fits(sy) }

    constructor (sy: Symbols)
      ensures this.sy == sy && Valid()
      ensures memo == Memo(seq(|sy.defines|, _ => false), seq(|sy.defines|, _ => None))
    {
      this.sy := sy;
      memo := Memo(seq(|sy.defines|, _ => false), seq(|sy.defines|, _ => None));
    }

    /** resolve_uint. */
    method Resolve(text: string) returns (out: bv32, ok: bool)
      requires Valid()
      modifies this
      ensures Valid() && Out32(out, ok, memo) == ResolveText(sy, text, old(memo))
      decreases Unvisited(memo.visiting), 2
    {
      var e := new Cursor(this, text);
      var v := e.Reverse();
      e.SkipWs();
      out, ok := Low32(v), e.ok && Peek(text, e.p) == '\0';
    }

    /** resolve_define_value, for the define a name was found to denote. */
    method Value(i: nat) returns (out: bv32, ok: bool)
      requires Valid() && i < |sy.defines|
      modifies this
      ensures Valid() && Out32(out, ok, memo) == ResolveDefine(sy, i, old(memo))
      decreases Unvisited(memo.visiting), 0, 0
    {
      if memo.value[i].Some? { return memo.value[i].value, true; }
      if memo.visiting[i] { return 0, false; }
      VisitCounts(memo.visiting, i);
      memo := memo.(visiting := memo.visiting[i := true]);
      out, ok := Resolve(sy.defines[i].text);
      memo := memo.(visiting := memo.visiting[i := false]);
      if ok { memo := memo.(value := memo.value[i := Some(out)]); } else { out := 0; }
    }
  }

  lemma LoopUnfold(s: string, k: nat, left: Parsed, depth: nat)
    requires 1 <= k <= 4 && left.pos <= |s|
    ensures var q := SkipSpace(s, left.pos);
            var op := OpAt(s, q);
            if op.Some? && Tier(op.value) == k then
              var right := ParseTier(s, k + 1, q + |OpText(op.value)|, depth);
              ParseLoop(s, k, left.e, left.ok, left.pos, depth)
                == ParseLoop(s, k, Bin(op.value, left.e, right.e), left.ok && right.ok, right.pos, depth)
            else ParseLoop(s, k, left.e, left.ok, left.pos, depth) == Parsed(left.e, left.ok, q)
  {
    hide SkipSpace, OpAt, OpText, Tier, Peek, ParseTier;
  }

  lemma BinUnfold(sy: Symbols, op: BinOp, l: Ast, r: Ast, m: Memo)
    requires m.Fits(sy)
    ensures var a := Eval(sy, l, m);
            var b := Eval(sy, r, a.memo);
            var c := Compute(op, a.v, b.v);
            Eval(sy, Bin(op, l, r), m) == Out(c.0, a.ok && b.ok && c.1, b.memo)
  {
    BinIs(sy, op, l, r, m);
    hide Eval, Compute, Unvisited;
  }

  lemma BinIs(sy: Symbols, op: BinOp, l: Ast, r: Ast, m: Memo)
    requires m.Fits(sy)
    ensures Eval(sy, Bin(op, l, r), m) == EvalBin(sy, op, l, r, m)
  {
    hide EvalBin, EvalName, Compute, Unvisited, LiteralWord, Negated, Reversed;
  }

  lemma NameUnfold(sy: Symbols, id: string, m: Memo)
    requires m.Fits(sy)
    ensures var d, l := FindDefine(sy.defines, id, 0), FindLabel(sy.labels, id, 0);
            Eval(sy, Name(id), m) ==
              if d.Some? then (var r := ResolveDefine(sy, d.value, m); Out(Widen(r.v), r.ok, r.memo))
              else if l.Some? then Out(l.value, true, m) else Out(0, false, m)
  {
    hide FindDefine, FindLabel, ResolveDefine, Unvisited, Widen;
  }

  lemma NumUnfold(sy: Symbols, lexeme: string, m: Memo)
    requires m.Fits(sy)
    ensures Eval(sy, Num(lexeme), m) == Out(LiteralWord(lexeme).0, LiteralWord(lexeme).1, m)
    ensures LiteralWord(lexeme).1 == Literal(lexeme).Some?
  {
    hide Literal, Unvisited;
  }

  lemma BadUnfold(sy: Symbols, m: Memo)
    requires m.Fits(sy)
    ensures Eval(sy, Bad, m) == Out(0, false, m)
  {
  }

  lemma OperandUnfold(s: string, p: nat, depth: nat)
    requires p <= |s|
    ensures ParseTier(s, 5, p, depth) == ParseOperand(s, SkipSpace(s, p), depth)
  {
  }

  lemma ParenUnfold(s: string, p: nat, depth: nat)
    requires p < |s| && s[p] == '('
    ensures var r := ParseTier(s, 0, p + 1, depth);
            var q := SkipSpace(s, r.pos);
            ParseOperand(s, p, depth) == if Peek(s, q) == ')' then Parsed(r.e, r.ok, q + 1) else Parsed(r.e, false, q)
  {
    hide ParseTier, SkipSpace, ParseLiteral, ParseName;
  }

  lemma UnaryUnfold(sy: Symbols, x: Ast, m: Memo)
    requires m.Fits(sy)
    ensures var o := Eval(sy, x, m);
            Eval(sy, Neg(x), m) == o.(v := Negated(o.v)) && Eval(sy, Rev(x), m) == o.(v := Reversed(o.v))
  {
    hide Unvisited, Negated, Reversed;
  }

  /** expr_t. */
  class Cursor {
    const ctx: Context
    const s: string
    var p: nat
    var ok: bool
    var depth: nat

    ghost predicate Valid() reads this, ctx { ctx.Valid() && p <= |s| }

    constructor (ctx: Context, s: string)
      requires ctx.Valid()
      ensures this.ctx == ctx && this.s == s && p == 0 && ok && depth == 0 && Valid()
    {
      this.ctx, this.s, p, ok, depth := ctx, s, 0, true, 0;
    }

    method SkipWs()
      requires Valid()
      modifies this`p
      ensures p == SkipSpace(s, old(p)) && Valid()
    {
      while IsSpace(Peek(s, p))
        invariant p <= |s| && SkipSpace(s, p) == SkipSpace(s, old(p))
        decreases |s| - p
      {
        p := p + 1;
      }
    }

    /** What parsing tier `k` from here yields, and what evaluating that yields. */
    ghost predicate Did(r: Parsed, m: Memo, ok0: bool, depth0: nat, v: bv64)
      requires m.Fits(ctx.sy)
      reads this, ctx
    {
      var o := Eval(ctx.sy, r.e, m);
      p == r.pos && ok == (ok0 && r.ok && o.ok) && depth == depth0 && v == o.v && ctx.memo == o.memo
    }

    /** expr_reverse. */
    method Reverse() returns (v: bv64)
      requires Valid()
      modifies this, ctx
      ensures Valid() && Did(ParseTier(s, 0, old(p), old(depth)), old(ctx.memo), old(ok), old(depth), v)
      decreases Unvisited(ctx.memo.visiting), 1, |s| - p, 6, 0
    {
      hide Eval, Unvisited, SkipSpace, Reversed, ParseLoop, ParseOperand;
      BadUnfold(ctx.sy, ctx.memo);
      depth := depth + 1;
      if depth > MAX_DEPTH {
        ok := false;
        depth := depth - 1;
        return 0;
      }
      SkipWs();
      if Peek(s, p) == ':' && Peek(s, p + 1) == ':' {
        UnaryUnfold(ctx.sy, ParseTier(s, 0, p + 2, depth).e, ctx.memo);
        p := p + 2;
        v := Reverse();
        v := Reversed(v);
      } else {
        v := Binary(1);
      }
      depth := depth - 1;
    }

    /** The next tier up: another operator loop, or an operand. */
    method Next(k: nat) returns (v: bv64)
      requires Valid() && 2 <= k <= 5
      modifies this, ctx
      ensures Valid() && Did(ParseTier(s, k, old(p), old(depth)), old(ctx.memo), old(ok), old(depth), v)
      decreases Unvisited(ctx.memo.visiting), 1, |s| - p, 6 - k, 1
    {
      if k <= 4 { v := Binary(k); } else { v := Primary(); }
    }

    /** One round of an operator loop: step over the operator, read the right
        operand, combine. The ghost arguments say what `left` came from. */
    method Apply(k: nat, op: BinOp, left: bv64, ghost e: Ast, ghost eok: bool, ghost m: Memo, ghost ok0: bool) returns (v: bv64)
      requires Valid() && 1 <= k <= 4 && p + |OpText(op)| <= |s| && m.Fits(ctx.sy)
      requires Did(Parsed(e, eok, p), m, ok0, depth, left)
      modifies this, ctx
      ensures Valid()
      ensures var right := ParseTier(s, k + 1, old(p) + |OpText(op)|, old(depth));
              Did(Parsed(Bin(op, e, right.e), eok && right.ok, right.pos), m, ok0, old(depth), v)
      decreases Unvisited(ctx.memo.visiting), 1, |s| - p, 0, 0
    {
      hide Compute, Unvisited, OpText, ParseTier, Eval;
      BinUnfold(ctx.sy, op, e, ParseTier(s, k + 1, p + |OpText(op)|, depth).e, m);
      p := p + |OpText(op)|;
      var r := Next(k + 1);
      var c := Compute(op, left, r);
      v := c.0;
      if !c.1 { ok := false; }
    }

    /** expr_shift, expr_add, expr_mul and expr_bit: the operator loops of tiers 1
        to 4. */
    method Binary(k: nat) returns (v: bv64)
      requires Valid() && 1 <= k <= 4
      modifies this, ctx
      ensures Valid() && Did(ParseTier(s, k, old(p), old(depth)), old(ctx.memo), old(ok), old(depth), v)
      decreases Unvisited(ctx.memo.visiting), 1, |s| - p, 6 - k, 0
    {
      hide Compute, Unvisited, SkipSpace, OpAt, OpText, Tier, Peek, ParseTier, ParseLoop, Eval;
      v := Next(k + 1);
      ghost var left := ParseTier(s, k + 1, old(p), depth);
      ExprRoundTrip.TierUnfold(s, k, old(p), depth);
      while true
        invariant Valid() && depth == old(depth) && old(p) <= p
        invariant ParseTier(s, k, old(p), depth) == ParseLoop(s, k, left.e, left.ok, p, depth)
        invariant left.pos == p && Did(left, old(ctx.memo), old(ok), old(depth), v)
        decreases |s| - p
      {
        LoopUnfold(s, k, left, depth);
        SkipWs();
        var op := OpAt(s, p);
        if op.None? || Tier(op.value) != k { break; }
        ghost var right := ParseTier(s, k + 1, p + |OpText(op.value)|, depth);
        v := Apply(k, op.value, v, left.e, left.ok, old(ctx.memo), old(ok));
        left := Parsed(Bin(op.value, left.e, right.e), left.ok && right.ok, right.pos);
      }
    }

    /** expr_primary. */
    method Primary() returns (v: bv64)
      requires Valid()
      modifies this, ctx
      ensures Valid() && Did(ParseTier(s, 5, old(p), old(depth)), old(ctx.memo), old(ok), old(depth), v)
      decreases Unvisited(ctx.memo.visiting), 1, |s| - p, 1, 0
    {
      hide ParseTier, Eval, Unvisited, SkipSpace, ParseLiteral, ParseName, Peek;
      OperandUnfold(s, p, depth);
      BadUnfold(ctx.sy, ctx.memo);
      SkipWs();
      var c := Peek(s, p);
      if c == '-' {
        v := Negative();
      } else if c == '(' {
        v := Parenthesised();
      } else if IsDigit(c) {
        v := Number();
      } else if IsLetter(c) {
        v := Symbol();
      } else {
        ok := false;
        v := 0;
      }
    }

    /** Unary minus: its operand is a whole multiplicative chain. */
    method Negative() returns (v: bv64)
      requires Valid() && Peek(s, p) == '-'
      modifies this, ctx
      ensures Valid() && Did(ParseOperand(s, old(p), old(depth)), old(ctx.memo), old(ok), old(depth), v)
      decreases Unvisited(ctx.memo.visiting), 1, |s| - p, 0, 0
    {
      assert p < |s|;
      hide ParseTier, Eval, Unvisited, SkipSpace, ParseLiteral, ParseName;
      UnaryUnfold(ctx.sy, ParseTier(s, 3, p + 1, depth).e, ctx.memo);
      p := p + 1;
      v := Binary(3);
      v := Negated(v);
    }

    method Parenthesised() returns (v: bv64)
      requires Valid() && Peek(s, p) == '('
      modifies this, ctx
      ensures Valid() && Did(ParseOperand(s, old(p), old(depth)), old(ctx.memo), old(ok), old(depth), v)
      decreases Unvisited(ctx.memo.visiting), 1, |s| - p, 0, 0
    {
      assert p < |s|;
      hide ParseTier, Eval, Unvisited, SkipSpace, ParseOperand;
      ParenUnfold(s, p, depth);
      p := p + 1;
      v := Reverse();
      Close();
    }

    /** Step over the closing parenthesis, which must be there. */
    method Close()
      requires Valid()
      modifies this`p, this`ok
      ensures var q := SkipSpace(s, old(p));
              && q <= |s|
              && p == (if Peek(s, q) == ')' then q + 1 else q) <= |s|
              && ok == (old(ok) && Peek(s, q) == ')')
    {
      SkipWs();
      if Peek(s, p) == ')' { p := p + 1; } else { ok := false; }
    }

    /** Scan a literal, keeping its first 33 characters. */
    method ScanLiteral() returns (num: string)
      requires Valid()
      modifies this`p
      ensures Valid() && p == LitEnd(s, old(p))
      ensures num == if p - old(p) > MAX_LITERAL then s[old(p)..old(p) + MAX_LITERAL] else s[old(p)..p]
    {
      var start := p;
      num := "";
      while LitChar(Peek(s, p))
        invariant start <= p <= |s| && LitEnd(s, p) == LitEnd(s, start)
        invariant num == if p - start > MAX_LITERAL then s[start..start + MAX_LITERAL] else s[start..p]
        decreases |s| - p
      {
        assert s[start..p + 1] == s[start..p] + [s[p]];
        if |num| < MAX_LITERAL { num := num + [s[p]]; }
        p := p + 1;
      }
    }

    /** The literal branch. */
    method Number() returns (v: bv64)
      requires Valid()
      modifies this
      ensures Valid() && Did(ParseLiteral(s, old(p)), old(ctx.memo), old(ok), old(depth), v)
    {
      hide Literal, LitEnd, Eval, LiteralWord, Unvisited;
      BadUnfold(ctx.sy, ctx.memo);
      var num := ScanLiteral();
      NumUnfold(ctx.sy, num, ctx.memo);
      var u := ParseUint(num);
      if u.None? { ok := false; return 0; }
      return LiteralWord(num).0;
    }

    /** Scan a name; over 31 characters it is refused. */
    method ScanName() returns (id: string, good: bool)
      requires Valid()
      modifies this`p
      ensures Valid() && good == (NameEnd(s, old(p)) - old(p) <= MAX_NAME)
      ensures if good then p == NameEnd(s, old(p)) && id == s[old(p)..p] else p == old(p) + MAX_NAME
    {
      var start := p;
      id := "";
      while NameChar(Peek(s, p))
        invariant start <= p <= |s| && NameEnd(s, p) == NameEnd(s, start)
        invariant id == s[start..p] && |id| <= MAX_NAME
        decreases |s| - p
      {
        if |id| >= MAX_NAME { return id, false; }
        id := id + [s[p]];
        p := p + 1;
      }
      return id, true;
    }

    /** The name branch: a define first, then a label. */
    method Symbol() returns (v: bv64)
      requires Valid()
      modifies this, ctx
      ensures Valid() && Did(ParseName(s, old(p)), old(ctx.memo), old(ok), old(depth), v)
      decreases Unvisited(ctx.memo.visiting), 1, |s| - p, 0, 0
    {
      hide NameEnd, ResolveDefine, Unvisited, Eval, FindDefine, FindLabel, Widen;
      BadUnfold(ctx.sy, ctx.memo);
      var id, good := ScanName();
      if !good { ok := false; return 0; }
      NameUnfold(ctx.sy, id, ctx.memo);
      var d := FindDefine(ctx.sy.defines, id, 0);
      if d.Some? {
        var dv, resolved := ctx.Value(d.value);
        if !resolved { ok := false; }
        return Widen(dv);
      }
      var l := FindLabel(ctx.sy.labels, id, 0);
      if l.Some? { return l.value; }
      ok := false;
      return 0;
    }
  }
}
