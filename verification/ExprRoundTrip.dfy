/** Printing an expression tree and parsing the text gives the tree back. */
module ExprRoundTrip {
  import opened Options
  import opened Expr

  /** The text `t` stands at position `p` of `s`. */
  predicate At(s: string, p: nat, t: string) {
    p + |t| <= |s| && s[p..p + |t|] == t
  }

  lemma AtConcat(s: string, p: nat, t: string, u: string)
    requires At(s, p, t + u)
    ensures At(s, p, t) && At(s, p + |t|, u)
  {
    assert s[p..p + |t|] == (t + u)[..|t|];
    assert s[p + |t|..p + |t| + |u|] == (t + u)[|t|..];
  }

  /** What may follow a text printed at tier `k`: the end, a closing parenthesis, or
      a binary operator looser than `k`. */
  predicate Stops(s: string, q: nat, k: nat) {
    || Peek(s, q) == '\0' || Peek(s, q) == ')'
    || (OpAt(s, q).Some? && Tier(OpAt(s, q).value) < k)
  }

  lemma StopsIsBoundary(s: string, q: nat, k: nat)
    requires Stops(s, q, k) && q <= |s|
    ensures !LitChar(Peek(s, q)) && !NameChar(Peek(s, q)) && SkipSpace(s, q) == q
  {
  }

  // ---- lexemes ----------------------------------------------------------------------

  lemma {:induction false} LitScan(s: string, p: nat, q: nat)
    requires p <= q <= |s| && (forall i :: p <= i < q ==> LitChar(s[i])) && !LitChar(Peek(s, q))
    ensures LitEnd(s, p) == q
    decreases q - p
  {
    if p < q { LitScan(s, p + 1, q); }
  }

  lemma {:induction false} NameScan(s: string, p: nat, q: nat)
    requires p <= q <= |s| && (forall i :: p <= i < q ==> NameChar(s[i])) && !NameChar(Peek(s, q))
    ensures NameEnd(s, p) == q
    decreases q - p
  {
    if p < q { NameScan(s, p + 1, q); }
  }

  lemma ParseLexeme(s: string, p: nat, l: string)
    requires IsLexeme(l) && At(s, p, l) && !LitChar(Peek(s, p + |l|))
    ensures ParseLiteral(s, p) == Parsed(Num(l), true, p + |l|)
  {
    hide Literal;
    forall i | p <= i < p + |l|
      ensures LitChar(s[i])
    {
      assert s[p..p + |l|][i - p] == s[i];
    }
    LitScan(s, p, p + |l|);
  }

  lemma ParseId(s: string, p: nat, id: string)
    requires IsName(id) && At(s, p, id) && !NameChar(Peek(s, p + |id|))
    ensures ParseName(s, p) == Parsed(Name(id), true, p + |id|)
  {
    forall i | p <= i < p + |id|
      ensures NameChar(s[i])
    {
      assert s[p..p + |id|][i - p] == s[i];
    }
    NameScan(s, p, p + |id|);
  }

  // ---- leading characters ---------------------------------------------------------------

  predicate OperandStart(c: char) {
    IsDigit(c) || IsLetter(c) || c == '-' || c == '('
  }

  /** Above tier 0 a printed text starts with an operand character. */
  lemma {:induction false} Leads(e: Ast, k: nat, f: bool)
    requires Good(e) && (k >= 1 || !e.Rev?)
    ensures Print(e, k, f) != "" && OperandStart(Print(e, k, f)[0])
    decreases e
  {
    hide Literal;
    if Bare(e, k, f) && e.Bin? { Leads(e.l, Tier(e.op), Tier(e.op) >= 3); }
  }

  lemma LeadsAt(s: string, p: nat, e: Ast, k: nat, f: bool)
    requires Good(e) && (k >= 1 || !e.Rev?) && At(s, p, Print(e, k, f))
    ensures p < |s| && OperandStart(s[p]) && SkipSpace(s, p) == p
  {
    Leads(e, k, f);
    assert s[p..p + |Print(e, k, f)|][0] == s[p];
  }

  // ---- operators ------------------------------------------------------------------------

  lemma OpTextAt(s: string, p: nat, op: BinOp)
    requires At(s, p, OpText(op))
    ensures OpAt(s, p) == Some(op) && SkipSpace(s, p) == p
  {
    var t := OpText(op);
    assert s[p] == s[p..p + |t|][0];
    if |t| == 2 { assert s[p + 1] == s[p..p + |t|][1]; }
  }

  lemma LoopStops(s: string, k: nat, e: Ast, q: nat, depth: nat)
    requires 1 <= k <= 4 && q <= |s| && Stops(s, q, k)
    ensures ParseLoop(s, k, e, true, q, depth) == Parsed(e, true, q)
  {
    StopsIsBoundary(s, q, k);
  }

  // ---- the round trip --------------------------------------------------------------------

  /** The setting of the induction: `e` printed for tier `k` stands at `p`, and what
      follows does not extend it. `k1` is the tier the follower must be looser than. */
  ghost predicate Standing(s: string, p: nat, e: Ast, k: nat, f: bool, depth: nat, k1: nat) {
    && Good(e) && At(s, p, Print(e, k, f)) && (f ==> k >= 3)
    && depth + Nesting(e, k, f) <= MAX_DEPTH
    && var q := p + |Print(e, k, f)|;
       Stops(s, q, k1) && (!f ==> Stops(s, q, 3))
  }

  function End(p: nat, e: Ast, k: nat, f: bool): nat {
    p + |Print(e, k, f)|
  }

  /** Measure: parenthesised texts before bare ones, low tiers before high ones. */
  function Phase(e: Ast, k: nat, f: bool): nat
    requires k <= 5
  {
    if Bare(e, k, f) then 20 - 4 * k else 60 - 4 * k
  }

  lemma SameTier(e: Ast, k: nat, f: bool)
    requires 1 <= k <= 4 && !(e.Bin? && Tier(e.op) == k)
    ensures Print(e, k, f) == Print(e, k + 1, f) && Nesting(e, k, f) == Nesting(e, k + 1, f)
    ensures Bare(e, k, f) == Bare(e, k + 1, f)
  {
  }

  /** Tier `k` reads `e` and carries on with its operator loop. */
  lemma {:induction false} ReadsInLoop(s: string, p: nat, e: Ast, k: nat, f: bool, depth: nat)
    requires 1 <= k <= 4 && Standing(s, p, e, k, f, depth, k + 1)
    ensures ParseTier(s, k, p, depth) == ParseLoop(s, k, e, true, End(p, e, k, f), depth)
    decreases e, Phase(e, k, f) + 1
  {
    hide ParseTier, ParseLoop, Print, Nesting, Good, Bare;
    if e.Bin? && Tier(e.op) == k {
      BinReads(s, p, e, k, f, depth);
    } else {
      SameTier(e, k, f);
      Reads(s, p, e, k + 1, f, depth);
      TierUnfold(s, k, p, depth);
    }
  }

  lemma TierUnfold(s: string, k: nat, p: nat, depth: nat)
    requires 1 <= k <= 4 && p <= |s|
    ensures var first := ParseTier(s, k + 1, p, depth);
            ParseTier(s, k, p, depth) == ParseLoop(s, k, first.e, first.ok, first.pos, depth)
  {
  }

  lemma LoopTakes(s: string, k: nat, op: BinOp, l: Ast, m: nat, depth: nat, r: Ast, q: nat)
    requires 1 <= k <= 4 && Tier(op) == k && m <= |s| && OpAt(s, m) == Some(op) && SkipSpace(s, m) == m
    requires ParseTier(s, k + 1, m + |OpText(op)|, depth) == Parsed(r, true, q)
    ensures q <= |s| && ParseLoop(s, k, l, true, m, depth) == ParseLoop(s, k, Bin(op, l, r), true, q, depth)
  {
    hide OpAt, SkipSpace, OpText, Tier, Peek, ParseTier;
  }

  lemma OpStops(s: string, m: nat, op: BinOp)
    requires OpAt(s, m) == Some(op)
    ensures Stops(s, m, Tier(op) + 1) && (Tier(op) < 3 ==> Stops(s, m, 3))
  {
  }

  lemma BinText(e: Ast, k: nat, f: bool)
    requires e.Bin? && Tier(e.op) == k
    ensures Print(e, k, f) == Print(e.l, k, k >= 3) + (OpText(e.op) + Print(e.r, k + 1, f))
    ensures Nesting(e, k, f) == Max(Nesting(e.l, k, k >= 3), Nesting(e.r, k + 1, f))
  {
  }

  lemma NestingParts(e: Ast, k: nat, f: bool)
    requires e.Bin? && Tier(e.op) == k
    ensures Nesting(e.l, k, k >= 3) <= Nesting(e, k, f) && Nesting(e.r, k + 1, f) <= Nesting(e, k, f)
  {
    hide Print, OpText;
    BinText(e, k, f);
  }

  /** Where the operator of a binary text stands. */
  function OpPos(p: nat, e: Ast, k: nat): nat
    requires e.Bin?
  {
    p + |Print(e.l, k, k >= 3)|
  }

  lemma BinLayout(s: string, p: nat, e: Ast, k: nat, f: bool)
    requires e.Bin? && Tier(e.op) == k && At(s, p, Print(e, k, f))
    ensures var m := OpPos(p, e, k);
            && At(s, p, Print(e.l, k, k >= 3)) && At(s, m, OpText(e.op)) && At(s, m + |OpText(e.op)|, Print(e.r, k + 1, f))
            && End(m + |OpText(e.op)|, e.r, k + 1, f) == End(p, e, k, f)
  {
    BinText(e, k, f);
    hide Print, At, OpText, Tier;
    var pl, ot, pr := Print(e.l, k, k >= 3), OpText(e.op), Print(e.r, k + 1, f);
    AtConcat(s, p, pl, ot + pr);
    AtConcat(s, p + |pl|, ot, pr);
  }

  lemma BinOpAt(s: string, p: nat, e: Ast, k: nat, f: bool)
    requires e.Bin? && Tier(e.op) == k && At(s, p, Print(e, k, f))
    ensures var m := OpPos(p, e, k); OpAt(s, m) == Some(e.op) && m <= |s| && SkipSpace(s, m) == m
  {
    BinLayout(s, p, e, k, f);
    hide Print, OpAt, SkipSpace, OpText, Tier;
    OpTextAt(s, OpPos(p, e, k), e.op);
  }

  lemma BinLeft(s: string, p: nat, e: Ast, k: nat, f: bool, depth: nat)
    requires 1 <= k <= 4 && e.Bin? && Tier(e.op) == k && Standing(s, p, e, k, f, depth, k + 1)
    ensures Standing(s, p, e.l, k, k >= 3, depth, k + 1)
  {
    hide *;
    StandsParts(s, p, e, k, f, depth, k + 1);
    GoodParts(e);
    BinLayout(s, p, e, k, f);
    NestingParts(e, k, f);
    BinOpAt(s, p, e, k, f);
    OpStops(s, OpPos(p, e, k), e.op);
    OpPosIs(p, e, k);
    EndIs(p, e.l, k, k >= 3);
    PartsStand(s, p, e.l, k, k >= 3, depth, k + 1);
  }

  lemma GoodParts(e: Ast)
    requires Good(e) && e.Bin?
    ensures Good(e.l) && Good(e.r)
  {
  }

  lemma OpPosIs(p: nat, e: Ast, k: nat)
    requires e.Bin?
    ensures OpPos(p, e, k) == p + |Print(e.l, k, k >= 3)|
  {
  }

  lemma EndIs(p: nat, e: Ast, k: nat, f: bool)
    ensures End(p, e, k, f) == p + |Print(e, k, f)|
  {
  }

  lemma BinRight(s: string, p: nat, e: Ast, k: nat, f: bool, depth: nat)
    requires 1 <= k <= 4 && e.Bin? && Tier(e.op) == k && Standing(s, p, e, k, f, depth, k + 1)
    ensures Standing(s, OpPos(p, e, k) + |OpText(e.op)|, e.r, k + 1, f, depth, k + 1)
    ensures End(OpPos(p, e, k) + |OpText(e.op)|, e.r, k + 1, f) == End(p, e, k, f)
  {
    hide *;
    StandsParts(s, p, e, k, f, depth, k + 1);
    GoodParts(e);
    BinLayout(s, p, e, k, f);
    NestingParts(e, k, f);
    PartsStand(s, OpPos(p, e, k) + |OpText(e.op)|, e.r, k + 1, f, depth, k + 1);
  }

  /** The setting of the induction, taken apart and put together. */
  lemma StandsParts(s: string, p: nat, e: Ast, k: nat, f: bool, depth: nat, k1: nat)
    requires Standing(s, p, e, k, f, depth, k1)
    ensures Good(e) && At(s, p, Print(e, k, f)) && (f ==> k >= 3) && depth + Nesting(e, k, f) <= MAX_DEPTH
    ensures Stops(s, End(p, e, k, f), k1) && (!f ==> Stops(s, End(p, e, k, f), 3))
  {
    hide Good, Print, Nesting, Stops, At;
  }

  lemma PartsStand(s: string, p: nat, e: Ast, k: nat, f: bool, depth: nat, k1: nat)
    requires Good(e) && At(s, p, Print(e, k, f)) && (f ==> k >= 3) && depth + Nesting(e, k, f) <= MAX_DEPTH
    requires Stops(s, End(p, e, k, f), k1) && (!f ==> Stops(s, End(p, e, k, f), 3))
    ensures Standing(s, p, e, k, f, depth, k1)
  {
    hide Good, Print, Nesting, Stops, At;
  }

  lemma {:induction false} BinReads(s: string, p: nat, e: Ast, k: nat, f: bool, depth: nat)
    requires 1 <= k <= 4 && e.Bin? && Tier(e.op) == k && Standing(s, p, e, k, f, depth, k + 1)
    ensures ParseTier(s, k, p, depth) == ParseLoop(s, k, e, true, End(p, e, k, f), depth)
    decreases e, Phase(e, k, f)
  {
    hide ParseTier, ParseLoop, Standing, Print, OpAt, SkipSpace, Bare, Phase, Tier, OpText;
    var m := OpPos(p, e, k);
    BinLeft(s, p, e, k, f, depth);
    BinRight(s, p, e, k, f, depth);
    StandsParts(s, p, e, k, f, depth, k + 1);
    BinOpAt(s, p, e, k, f);
    ReadsInLoop(s, p, e.l, k, k >= 3, depth);
    Reads(s, m + |OpText(e.op)|, e.r, k + 1, f, depth);
    LoopTakes(s, k, e.op, e.l, m, depth, e.r, End(p, e, k, f));
  }

  /** Tier `k` reads exactly `e`. */
  lemma {:induction false} Reads(s: string, p: nat, e: Ast, k: nat, f: bool, depth: nat)
    requires k <= 5 && Standing(s, p, e, k, f, depth, k)
    ensures ParseTier(s, k, p, depth) == Parsed(e, true, End(p, e, k, f))
    decreases e, Phase(e, k, f) + 2
  {
    hide ParseTier, ParseLoop, Print, Nesting, Good;
    if k == 0 {
      ReadsTop(s, p, e, f, depth);
    } else if k == 5 {
      ReadsOperand(s, p, e, f, depth);
    } else {
      ReadsInLoop(s, p, e, k, f, depth);
      LoopStops(s, k, e, End(p, e, k, f), depth);
    }
  }

  lemma TopUnfold(s: string, p: nat, depth: nat)
    requires p <= |s| && depth < MAX_DEPTH && SkipSpace(s, p) == p
    ensures ParseTier(s, 0, p, depth) ==
            if Peek(s, p) == ':' && Peek(s, p + 1) == ':' then
              var r := ParseTier(s, 0, p + 2, depth + 1); Parsed(Rev(r.e), r.ok, r.pos)
            else ParseTier(s, 1, p, depth + 1)
  {
  }

  lemma TopText(e: Ast)
    ensures Print(e, 0, false) == PrintBare(e, false) && Nesting(e, 0, false) == 1 + NestingBare(e, false)
    ensures e.Rev? ==> Print(e, 0, false) == "::" + Print(e.e, 0, false) && Nesting(e, 0, false) == 1 + Nesting(e.e, 0, false)
    ensures !e.Rev? ==> (Print(e, 1, false) == Print(e, 0, false) && Nesting(e, 0, false) == 1 + Nesting(e, 1, false) && Bare(e, 1, false))
  {
  }

  lemma RevStands(s: string, p: nat, e: Ast, f: bool, depth: nat)
    requires e.Rev? && Standing(s, p, e, 0, f, depth, 0)
    ensures Standing(s, p + 2, e.e, 0, false, depth + 1, 0) && End(p + 2, e.e, 0, false) == End(p, e, 0, f)
    ensures p + 2 <= |s| && s[p] == ':' && s[p + 1] == ':' && SkipSpace(s, p) == p && depth < MAX_DEPTH
  {
    TopText(e);
    hide Print, Nesting, Stops;
    AtConcat(s, p, "::", Print(e.e, 0, false));
    assert s[p] == s[p..p + 2][0] && s[p + 1] == s[p..p + 2][1];
  }

  lemma PlainStands(s: string, p: nat, e: Ast, f: bool, depth: nat)
    requires !e.Rev? && Standing(s, p, e, 0, f, depth, 0)
    ensures Standing(s, p, e, 1, false, depth + 1, 1) && End(p, e, 1, false) == End(p, e, 0, f) && Bare(e, 1, false)
    ensures p < |s| && s[p] != ':' && SkipSpace(s, p) == p && depth < MAX_DEPTH
  {
    hide Print, Nesting, Stops, Good, Literal, PrintBare, NestingBare;
    TopText(e);
    StopsMore(s, End(p, e, 0, f));
    LeadsAt(s, p, e, 1, false);
  }

  lemma StopsMore(s: string, q: nat)
    requires Stops(s, q, 0)
    ensures Stops(s, q, 1) && Stops(s, q, 3)
  {
  }

  lemma {:induction false} ReadsTop(s: string, p: nat, e: Ast, f: bool, depth: nat)
    requires Standing(s, p, e, 0, f, depth, 0)
    ensures ParseTier(s, 0, p, depth) == Parsed(e, true, End(p, e, 0, f))
    decreases e, Phase(e, 0, f) + 1
  {
    hide ParseTier, Print, Standing, SkipSpace;
    if e.Rev? {
      RevStands(s, p, e, f, depth);
      Reads(s, p + 2, e.e, 0, false, depth + 1);
    } else {
      PlainStands(s, p, e, f, depth);
      Reads(s, p, e, 1, false, depth + 1);
    }
    TopUnfold(s, p, depth);
  }

  lemma OperandUnfold(s: string, p: nat, depth: nat)
    requires p <= |s| && SkipSpace(s, p) == p
    ensures ParseTier(s, 5, p, depth) == ParseOperand(s, p, depth)
  {
  }

  lemma {:induction false} ReadsOperand(s: string, p: nat, e: Ast, f: bool, depth: nat)
    requires Standing(s, p, e, 5, f, depth, 5)
    ensures ParseTier(s, 5, p, depth) == Parsed(e, true, End(p, e, 5, f))
    decreases e, Phase(e, 5, f) + 1
  {
    hide ParseTier, ParseOperand, Print, Nesting, Good, Stops, Peek;
    LeadsAt(s, p, e, 5, f);
    OperandUnfold(s, p, depth);
    if !Bare(e, 5, f) {
      ParenReads(s, p, e, f, depth);
    } else if e.Neg? {
      NegReads(s, p, e, depth);
    } else {
      BareIsAtom(e, f);
      StopsIsBoundary(s, End(p, e, 5, f), 5);
      AtomReads(s, p, e, f, depth);
    }
  }

  lemma BareIsAtom(e: Ast, f: bool)
    requires Good(e) && Bare(e, 5, f) && !e.Neg?
    ensures e.Num? || e.Name?
  {
  }

  lemma AtomReads(s: string, p: nat, e: Ast, f: bool, depth: nat)
    requires Good(e) && (e.Num? || e.Name?) && At(s, p, Print(e, 5, f))
    requires !LitChar(Peek(s, End(p, e, 5, f))) && !NameChar(Peek(s, End(p, e, 5, f)))
    ensures ParseOperand(s, p, depth) == Parsed(e, true, End(p, e, 5, f))
  {
    hide ParseTier, ParseLiteral, ParseName, Literal;
    assert s[p] == s[p..p + |Print(e, 5, f)|][0];
    if e.Num? { ParseLexeme(s, p, e.lexeme); } else { ParseId(s, p, e.id); }
  }

  lemma {:induction false} NegReads(s: string, p: nat, e: Ast, depth: nat)
    requires e.Neg? && Standing(s, p, e, 5, false, depth, 5)
    ensures ParseOperand(s, p, depth) == Parsed(e, true, End(p, e, 5, false))
    decreases e, 0
  {
    assert Print(e, 5, false) == "-" + Print(e.e, 3, false) && Nesting(e, 5, false) == Nesting(e.e, 3, false);
    hide Print, Nesting, ParseTier;
    AtConcat(s, p, "-", Print(e.e, 3, false));
    assert s[p] == s[p..p + 1][0];
    Reads(s, p + 1, e.e, 3, false, depth);
  }

  lemma ParenText(e: Ast, f: bool)
    requires !Bare(e, 5, f)
    ensures Print(e, 5, f) == "(" + (Print(e, 0, false) + ")") && Nesting(e, 5, f) == Nesting(e, 0, false)
  {
    TopText(e);
  }

  lemma ParenStands(s: string, p: nat, e: Ast, f: bool, depth: nat)
    requires !Bare(e, 5, f) && Standing(s, p, e, 5, f, depth, 5)
    ensures Standing(s, p + 1, e, 0, false, depth, 0)
    ensures var q := End(p + 1, e, 0, false); p < q < |s| && s[p] == '(' && s[q] == ')' && q + 1 == End(p, e, 5, f)
  {
    ParenText(e, f);
    var t := Print(e, 0, false);
    hide Print, Nesting, Good, OpAt;
    AtConcat(s, p, "(", t + ")");
    AtConcat(s, p + 1, t, ")");
    assert s[p] == s[p..p + 1][0];
    var q := p + 1 + |t|;
    assert s[q] == s[q..q + 1][0];
  }

  lemma {:induction false} ParenReads(s: string, p: nat, e: Ast, f: bool, depth: nat)
    requires !Bare(e, 5, f) && Standing(s, p, e, 5, f, depth, 5)
    ensures ParseOperand(s, p, depth) == Parsed(e, true, End(p, e, 5, f))
    decreases e, Phase(e, 5, f)
  {
    ParenStands(s, p, e, f, depth);
    TopText(e);
    hide Print, Nesting, ParseTier, Standing;
    Reads(s, p + 1, e, 0, false, depth);
  }

  /** For every well-formed tree within the nesting cap, the text printed with
      minimal parentheses parses back to exactly that tree. */
  lemma PrintThenParse(e: Ast)
    requires Good(e) && Nesting(e, 0, false) <= MAX_DEPTH
    ensures ParseText(Print(e, 0, false)) == (e, true)
  {
    var s := Print(e, 0, false);
    assert s[0..0 + |s|] == s;
    hide Print, Nesting, ParseTier;
    Reads(s, 0, e, 0, false, 0);
  }
}
