/** Exactly which expression texts resolve: everything reachable from the text is
    well formed, declared, legal and free of reference cycles. */
module Resolvable {
  import opened Options
  import opened Expr
  import opened Defines

  // ---- parsed texts are well-formed trees ----------------------------------------------

  /** No gap in the tree, and every literal has a value. */
  predicate WellFormed(e: Ast) {
    match e
    case Num(lexeme) => Literal(lexeme).Some?
    case Name(_) => true
    case Neg(x) => WellFormed(x)
    case Rev(x) => WellFormed(x)
    case Bin(_, l, r) => WellFormed(l) && WellFormed(r)
    case Bad => false
  }

  lemma {:induction false} TierWellFormed(s: string, k: nat, p: nat, depth: nat)
    requires k <= 5 && p <= |s| && ParseTier(s, k, p, depth).ok
    ensures WellFormed(ParseTier(s, k, p, depth).e)
    decreases |s| - p, 6 - k
  {
    hide Literal, ParseLoop, ParseOperand;
    if k == 0 {
      var q := SkipSpace(s, p);
      if Peek(s, q) == ':' && Peek(s, q + 1) == ':' {
        TierWellFormed(s, 0, q + 2, depth + 1);
      } else {
        TierWellFormed(s, 1, q, depth + 1);
      }
    } else if k <= 4 {
      var first := ParseTier(s, k + 1, p, depth);
      LoopKeepsOk(s, k, first.e, first.ok, first.pos, depth);
      TierWellFormed(s, k + 1, p, depth);
      LoopWellFormed(s, k, first.e, first.ok, first.pos, depth);
    } else {
      OperandWellFormed(s, SkipSpace(s, p), depth);
    }
  }

  /** An operator loop never repairs an error to its left. */
  lemma {:induction false} LoopKeepsOk(s: string, k: nat, left: Ast, ok: bool, p: nat, depth: nat)
    requires 1 <= k <= 4 && p <= |s| && ParseLoop(s, k, left, ok, p, depth).ok
    ensures ok
    decreases |s| - p
  {
    hide ParseTier;
    var q := SkipSpace(s, p);
    var op := OpAt(s, q);
    if op.Some? && Tier(op.value) == k {
      var right := ParseTier(s, k + 1, q + |OpText(op.value)|, depth);
      LoopKeepsOk(s, k, Bin(op.value, left, right.e), ok && right.ok, right.pos, depth);
    }
  }

  lemma {:induction false} LoopWellFormed(s: string, k: nat, left: Ast, ok: bool, p: nat, depth: nat)
    requires 1 <= k <= 4 && p <= |s| && WellFormed(left) && ParseLoop(s, k, left, ok, p, depth).ok
    ensures WellFormed(ParseLoop(s, k, left, ok, p, depth).e)
    decreases |s| - p, 0
  {
    hide Literal, ParseTier;
    var q := SkipSpace(s, p);
    var op := OpAt(s, q);
    if op.Some? && Tier(op.value) == k {
      var right := ParseTier(s, k + 1, q + |OpText(op.value)|, depth);
      LoopKeepsOk(s, k, Bin(op.value, left, right.e), ok && right.ok, right.pos, depth);
      TierWellFormed(s, k + 1, q + |OpText(op.value)|, depth);
      LoopWellFormed(s, k, Bin(op.value, left, right.e), ok && right.ok, right.pos, depth);
    }
  }

  lemma {:induction false} OperandWellFormed(s: string, p: nat, depth: nat)
    requires p <= |s| && ParseOperand(s, p, depth).ok
    ensures WellFormed(ParseOperand(s, p, depth).e)
    decreases |s| - p, 0
  {
    hide Literal, ParseTier, LitEnd, NameEnd;
    var c := Peek(s, p);
    if c == '-' {
      TierWellFormed(s, 3, p + 1, depth);
    } else if c == '(' {
      TierWellFormed(s, 0, p + 1, depth);
    }
  }

  // ---- what a text needs ------------------------------------------------------------------

  predicate Declared(sy: Symbols, id: string) {
    FindDefine(sy.defines, id, 0).Some? || FindLabel(sy.labels, id, 0).Some?
  }

  /** Every operation whose operands have values is legal on them: no division by
      zero, no shift count outside 0 to 63. */
  ghost predicate LegalOps(sy: Symbols, e: Ast) {
    match e
    case Neg(x) => LegalOps(sy, x)
    case Rev(x) => LegalOps(sy, x)
    case Bin(op, l, r) =>
      && LegalOps(sy, l) && LegalOps(sy, r)
      && forall n: nat :: Denote(sy, l, n).Some? && Denote(sy, r, n).Some? ==>
           Compute(op, Denote(sy, l, n).value, Denote(sy, r, n).value).1
    case _ => true
  }

  /** The text parses to its end, names only declared symbols, and computes legally. */
  ghost predicate Sane(sy: Symbols, text: string) {
    && ParseText(text).1
    && (forall id :: Mentions(ParseText(text).0, id) ==> Declared(sy, id))
    && LegalOps(sy, ParseText(text).0)
  }

  /** The tree mentions define `i`. */
  ghost predicate Uses(sy: Symbols, e: Ast, i: nat) {
    exists id :: Mentions(e, id) && FindDefine(sy.defines, id, 0) == Some(i)
  }

  /** `path` leads from a define the text mentions, reference by reference. */
  ghost predicate Leads(sy: Symbols, text: string, path: seq<nat>) {
    path != [] && RefPath(sy, path) && Uses(sy, ParseText(text).0, path[0])
  }

  ghost predicate Cycle(sy: Symbols, path: seq<nat>) {
    RefPath(sy, path) && |path| >= 2 && path[|path| - 1] == path[0]
  }

  /** No reachable text is malformed, undefined or illegal, and no reachable define
      lies on a reference cycle. */
  ghost predicate Clean(sy: Symbols, text: string) {
    && Sane(sy, text)
    && (forall path :: Leads(sy, text, path) ==> Sane(sy, sy.defines[path[|path| - 1]].text))
    && (forall path, loop :: Leads(sy, text, path) && Cycle(sy, loop) ==> loop[0] != path[|path| - 1])
  }

  // ---- values make everything reachable clean ------------------------------------------------

  lemma {:induction false} ValueIsLegal(sy: Symbols, e: Ast, n: nat)
    requires Denote(sy, e, n).Some?
    ensures LegalOps(sy, e)
    decreases e
  {
    hide Compute, LiteralWord, Negated, Reversed, Widen, DefineValue;
    match e
    case Neg(x) => ValueIsLegal(sy, x, n);
    case Rev(x) => ValueIsLegal(sy, x, n);
    case Bin(op, l, r) =>
      ValueIsLegal(sy, l, n);
      ValueIsLegal(sy, r, n);
      forall k: nat | Denote(sy, l, k).Some? && Denote(sy, r, k).Some?
        ensures Compute(op, Denote(sy, l, k).value, Denote(sy, r, k).value).1
      {
        SameDenotation(sy, l, n, k);
        SameDenotation(sy, r, n, k);
      }
    case _ =>
  }

  lemma SameDenotation(sy: Symbols, e: Ast, n: nat, k: nat)
    requires Denote(sy, e, n).Some? && Denote(sy, e, k).Some?
    ensures Denote(sy, e, n) == Denote(sy, e, k)
  {
    hide Denote;
    if n <= k { DenoteMore(sy, e, n, k - n); } else { DenoteMore(sy, e, k, n - k); }
  }

  lemma ValueIsSane(sy: Symbols, text: string, n: nat)
    requires TextValue(sy, text, n).Some?
    ensures Sane(sy, text)
  {
    var e := ParseText(text).0;
    ValueIsLegal(sy, e, n);
    hide LegalOps, ParseText, Low32;
    forall id | Mentions(e, id)
      ensures Declared(sy, id)
    {
      MentionsDenote(sy, e, n, id);
    }
  }

  ghost predicate Valued(sy: Symbols, i: nat)
    requires i < |sy.defines|
  {
    exists k: nat :: DefineValue(sy, i, k).Some?
  }

  /** Every define a valued text leads to has a value. */
  lemma LedToHasValue(sy: Symbols, text: string, n: nat, path: seq<nat>)
    requires TextValue(sy, text, n).Some? && Leads(sy, text, path)
    ensures path[|path| - 1] < |sy.defines| && Valued(sy, path[|path| - 1])
  {
    var e := ParseText(text).0;
    var id :| Mentions(e, id) && FindDefine(sy.defines, id, 0) == Some(path[0]);
    MentionsDenote(sy, e, n, id);
    assert DefineValue(sy, path[0], n).Some?;
    hide DefineValue, Denote, ParseText, RefersTo;
    PathDescends(sy, path, n);
  }

  lemma ValueIsClean(sy: Symbols, text: string, n: nat)
    requires TextValue(sy, text, n).Some?
    ensures Clean(sy, text)
  {
    ValueIsSane(sy, text, n);
    hide Sane, TextValue;
    forall path | Leads(sy, text, path)
      ensures Sane(sy, sy.defines[path[|path| - 1]].text)
    {
      LedToHasValue(sy, text, n, path);
      var k: nat :| DefineValue(sy, path[|path| - 1], k).Some?;
      ValueIsSane(sy, sy.defines[path[|path| - 1]].text, k - 1);
    }
    forall path, loop | Leads(sy, text, path) && Cycle(sy, loop)
      ensures loop[0] != path[|path| - 1]
    {
      LedToHasValue(sy, text, n, path);
      var k: nat :| DefineValue(sy, path[|path| - 1], k).Some?;
      CyclicHasNoValue(sy, loop, k);
    }
  }

  // ---- clean texts have values ------------------------------------------------------------------

  /** A sane tree without a value at depth `n` mentions a define without one. */
  lemma {:induction false} MissingMention(sy: Symbols, e: Ast, n: nat) returns (i: nat)
    requires WellFormed(e) && LegalOps(sy, e) && Denote(sy, e, n).None?
    requires forall id :: Mentions(e, id) ==> Declared(sy, id)
    ensures i < |sy.defines| && Uses(sy, e, i) && DefineValue(sy, i, n).None?
    decreases e
  {
    hide Compute, Negated, Reversed, Widen, DefineValue, Literal;
    match e
    case Name(id) =>
      assert Mentions(e, id);
      i := FindDefine(sy.defines, id, 0).value;
    case Neg(x) =>
      i := MissingMention(sy, x, n);
      UsesInside(sy, x, e, i);
    case Rev(x) =>
      i := MissingMention(sy, x, n);
      UsesInside(sy, x, e, i);
    case Bin(op, l, r) =>
      if Denote(sy, l, n).None? {
        i := MissingMention(sy, l, n);
        UsesInside(sy, l, e, i);
      } else {
        i := MissingMention(sy, r, n);
        UsesInside(sy, r, e, i);
      }
  }

  lemma UsesInside(sy: Symbols, x: Ast, e: Ast, i: nat)
    requires Uses(sy, x, i) && forall id :: Mentions(x, id) ==> Mentions(e, id)
    ensures Uses(sy, e, i)
  {
  }

  lemma SaneMissing(sy: Symbols, text: string, n: nat) returns (i: nat)
    requires Sane(sy, text) && TextValue(sy, text, n).None?
    ensures i < |sy.defines| && Uses(sy, ParseText(text).0, i) && DefineValue(sy, i, n).None?
  {
    TextWellFormed(text);
    hide ParseText, WellFormed, LegalOps, Uses, DefineValue, Low32;
    i := MissingMention(sy, ParseText(text).0, n);
  }

  lemma TextWellFormed(text: string)
    requires ParseText(text).1
    ensures WellFormed(ParseText(text).0)
  {
    hide ParseTier, WellFormed;
    TierWellFormed(text, 0, 0, 0);
  }

  /** From a define without a value at depth `n`, a path of `n` more references. */
  lemma {:induction false} LongPath(sy: Symbols, text: string, path: seq<nat>, n: nat) returns (long: seq<nat>)
    requires Clean(sy, text) && Leads(sy, text, path) && DefineValue(sy, path[|path| - 1], n).None?
    ensures Leads(sy, text, long) && |long| == |path| + n
    decreases n
  {
    long := path;
    if n > 0 {
      var last := path[|path| - 1];
      assert Sane(sy, sy.defines[last].text);
      hide Clean, Sane, Uses;
      var j := SaneMissing(sy, sy.defines[last].text, n - 1);
      var next := path + [j];
      Extends(sy, text, path, j);
      long := LongPath(sy, text, next, n - 1);
    }
  }

  lemma Extends(sy: Symbols, text: string, path: seq<nat>, j: nat)
    requires Leads(sy, text, path) && j < |sy.defines| && Uses(sy, ParseText(sy.defines[path[|path| - 1]].text).0, j)
    ensures Leads(sy, text, path + [j])
  {
    hide ParseText, Mentions;
    var next := path + [j];
    forall p | 0 <= p < |next| - 1
      ensures RefersTo(sy, next[p], next[p + 1])
    {
      if p < |path| - 1 { assert RefersTo(sy, path[p], path[p + 1]); }
    }
  }

  // ---- a long path repeats a define ----------------------------------------------------------------

  function Members(s: seq<nat>): set<nat> {
    set x | x in s
  }

  function Below(n: nat): (r: set<nat>)
    ensures |r| == n && forall x: nat :: x in r <==> x < n
  {
    if n == 0 then {} else Below(n - 1) + {n - 1}
  }

  lemma {:induction false} DistinctCount(s: seq<nat>)
    requires forall a, b :: 0 <= a < b < |s| ==> s[a] != s[b]
    ensures |Members(s)| == |s|
  {
    if s == [] {
      assert Members(s) == {};
    } else {
      var n := |s| - 1;
      DistinctCount(s[..n]);
      assert Members(s) == Members(s[..n]) + {s[n]};
      assert s[n] !in Members(s[..n]);
    }
  }

  lemma SubsetCount(a: set<nat>, b: set<nat>)
    requires a <= b
    ensures |a| <= |b|
  {
    assert b == a + (b - a);
    assert |b| == |a| + |b - a|;
  }

  lemma Repeats(s: seq<nat>, n: nat) returns (a: nat, b: nat)
    requires |s| > n && forall p :: 0 <= p < |s| ==> s[p] < n
    ensures a < b < |s| && s[a] == s[b]
  {
    if forall a, b :: 0 <= a < b < |s| ==> s[a] != s[b] {
      DistinctCount(s);
      SubsetCount(Members(s), Below(n));
      assert false;
    }
    a, b :| 0 <= a < b < |s| && s[a] == s[b];
  }

  /** A path that repeats a define runs into a reachable cycle. */
  lemma RepeatIsCycle(sy: Symbols, text: string, path: seq<nat>, a: nat, b: nat)
    requires Leads(sy, text, path) && a < b < |path| && path[a] == path[b]
    ensures var pre, loop := path[..a + 1], path[a..b + 1];
            Leads(sy, text, pre) && Cycle(sy, loop) && loop[0] == pre[|pre| - 1]
  {
    hide RefersTo, ParseText, Uses;
    var pre, loop := path[..a + 1], path[a..b + 1];
    forall p | 0 <= p < |pre| - 1
      ensures RefersTo(sy, pre[p], pre[p + 1])
    {
      assert RefersTo(sy, path[p], path[p + 1]);
    }
    forall p | 0 <= p < |loop| - 1
      ensures RefersTo(sy, loop[p], loop[p + 1])
    {
      assert RefersTo(sy, path[a + p], path[a + p + 1]);
    }
  }

  /** A clean text has a value, and nesting as deep as there are defines suffices. */
  lemma CleanHasValue(sy: Symbols, text: string)
    requires Clean(sy, text)
    ensures TextValue(sy, text, |sy.defines|).Some?
  {
    var n := |sy.defines|;
    if TextValue(sy, text, n).None? {
      var i := SaneMissing(sy, text, n);
      var path := LongPath(sy, text, [i], n);
      var a, b := Repeats(path, n);
      RepeatIsCycle(sy, text, path, a, b);
    }
  }

  /** Resolution of any text over any define table succeeds exactly when no reachable
      reference is undefined, cyclic, malformed or illegal. */
  lemma ResolvesExactlyWhenClean(sy: Symbols, text: string, m: Memo)
    requires m.Fits(sy) && Correct(sy, m) && forall i :: 0 <= i < |m.visiting| ==> !m.visiting[i]
    ensures ResolveText(sy, text, m).ok <==> Clean(sy, text)
    ensures Clean(sy, text) ==> TextValue(sy, text, |sy.defines|) == Some(ResolveText(sy, text, m).v)
  {
    hide ResolveText, TextValue, Clean, Correct;
    ResolveIsDenotation(sy, text, m);
    if ResolveText(sy, text, m).ok {
      var n: nat :| TextValue(sy, text, n).Some?;
      ValueIsClean(sy, text, n);
    }
    if Clean(sy, text) { CleanHasValue(sy, text); }
  }
}
