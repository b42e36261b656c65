/** Assembler expressions: the recursive-descent parser over the character stream
    and a printer that adds parentheses only where precedence needs them. */
module Expr {
  import opened Options

  const MAX_DEPTH: nat := 64
  const MAX_LITERAL: nat := 33
  const MAX_NAME: nat := 31

  datatype BinOp = BitAnd | BitOr | BitXor | Times | Over | Plus | Minus | ShiftL | ShiftR

  /** Binding strength: `& | ^` tightest, then `* /`, `+ -`, `<< >>`. */
  function Tier(op: BinOp): (t: nat)
    ensures 1 <= t <= 4
  {
    match op
    case BitAnd | BitOr | BitXor => 4
    case Times | Over => 3
    case Plus | Minus => 2
    case ShiftL | ShiftR => 1
  }

  function OpText(op: BinOp): (t: string)
    ensures 1 <= |t| <= 2
  {
    match op
    case BitAnd => "&"
    case BitOr => "|"
    case BitXor => "^"
    case Times => "*"
    case Over => "/"
    case Plus => "+"
    case Minus => "-"
    case ShiftL => "<<"
    case ShiftR => ">>"
  }

  /** `Bad` stands where the text held no operand. */
  datatype Ast =
    | Num(lexeme: string)
    | Name(id: string)
    | Neg(e: Ast)
    | Rev(e: Ast)
    | Bin(op: BinOp, l: Ast, r: Ast)
    | Bad

  // ---- characters -------------------------------------------------------------------

  /** The character under a cursor; the end of the text reads as NUL. */
  function Peek(s: string, p: nat): char {
    if p < |s| then s[p] else '\0'
  }

  predicate IsDigit(c: char) { '0' <= c <= '9' }

  predicate IsLetter(c: char) { 'a' <= c <= 'z' || 'A' <= c <= 'Z' || c == '_' }

  /** What the literal scanner accepts: hex digits and the x of 0x. */
  predicate LitChar(c: char) { IsDigit(c) || 'a' <= c <= 'f' || 'A' <= c <= 'F' || c == 'x' || c == 'X' }

  predicate NameChar(c: char) { IsLetter(c) || IsDigit(c) }

  predicate IsSpace(c: char) { c == ' ' || c == '\t' }

  function SkipSpace(s: string, p: nat): (q: nat)
    requires p <= |s|
    ensures p <= q <= |s| && !IsSpace(Peek(s, q))
    decreases |s| - p
  {
    if IsSpace(Peek(s, p)) then SkipSpace(s, p + 1) else p
  }

  function LitEnd(s: string, p: nat): (q: nat)
    requires p <= |s|
    ensures p <= q <= |s| && !LitChar(Peek(s, q)) && (LitChar(Peek(s, p)) ==> q > p)
    decreases |s| - p
  {
    if LitChar(Peek(s, p)) then LitEnd(s, p + 1) else p
  }

  function NameEnd(s: string, p: nat): (q: nat)
    requires p <= |s|
    ensures p <= q <= |s| && !NameChar(Peek(s, q)) && (NameChar(Peek(s, p)) ==> q > p)
    decreases |s| - p
  {
    if NameChar(Peek(s, p)) then NameEnd(s, p + 1) else p
  }

  /** The binary operator at a cursor, if any. */
  function OpAt(s: string, p: nat): (r: Option<BinOp>)
    ensures r.Some? ==> p + |OpText(r.value)| <= |s|
  {
    match Peek(s, p)
    case '&' => Some(BitAnd)
    case '|' => Some(BitOr)
    case '^' => Some(BitXor)
    case '*' => Some(Times)
    case '/' => Some(Over)
    case '+' => Some(Plus)
    case '-' => Some(Minus)
    case '<' => if Peek(s, p + 1) == '<' then Some(ShiftL) else None
    case '>' => if Peek(s, p + 1) == '>' then Some(ShiftR) else None
    case _ => None
  }

  // ---- literals -----------------------------------------------------------------------

  function DigitOf(c: char, base: nat): Option<nat> {
    if base == 2 then (if c == '0' then Some(0) else if c == '1' then Some(1) else None)
    else if IsDigit(c) then Some(c as int - '0' as int)
    else if base == 16 && 'a' <= c <= 'f' then Some(c as int - 'a' as int + 10)
    else if base == 16 && 'A' <= c <= 'F' then Some(c as int - 'A' as int + 10)
    else None
  }

  /** The mathematical value of a digit string. */
  function Positional(digits: string, base: nat): (r: Option<nat>) {
    if digits == "" then Some(0)
    else
      var n := |digits| - 1;
      var high, low := Positional(digits[..n], base), DigitOf(digits[n], base);
      if high.Some? && low.Some? then Some(high.value * base + low.value) else None
  }

  function BaseOf(s: string): nat {
    if |s| >= 2 && s[0] == '0' && (s[1] == 'x' || s[1] == 'X') then 16
    else if |s| >= 2 && s[0] == '0' && (s[1] == 'b' || s[1] == 'B') then 2
    else 10
  }

  function DigitsOf(s: string): string {
    if BaseOf(s) == 10 then s else s[2..]
  }

  /** A literal's value: its positional value when that fits 32 bits. */
  function Literal(s: string): (r: Option<nat>)
    ensures r.Some? ==> r.value < 0x1_0000_0000
  {
    var digits := DigitsOf(s);
    if digits == "" then None
    else
      var v := Positional(digits, BaseOf(s));
      if v.Some? && v.value < 0x1_0000_0000 then v else None
  }

  // ---- the parser ---------------------------------------------------------------------

  /** A tree, whether it was well formed, and the cursor after it. The parser goes
      on after an error. */
  datatype Parsed = Parsed(e: Ast, ok: bool, pos: nat)

  /** Tier 0 is `::`, tiers 1 to 4 the binary operators, tier 5 an operand. */
  function ParseTier(s: string, k: nat, p: nat, depth: nat): (r: Parsed)
    requires k <= 5 && p <= |s|
    ensures p <= r.pos <= |s|
    decreases |s| - p, 6 - k
  {
    if k == 0 then
      if depth >= MAX_DEPTH then Parsed(Bad, false, p)
      else
        var q := SkipSpace(s, p);
        if Peek(s, q) == ':' && Peek(s, q + 1) == ':' then
          var r := ParseTier(s, 0, q + 2, depth + 1);
          Parsed(Rev(r.e), r.ok, r.pos)
        else ParseTier(s, 1, q, depth + 1)
    else if k <= 4 then
      var first := ParseTier(s, k + 1, p, depth);
      ParseLoop(s, k, first.e, first.ok, first.pos, depth)
    else ParseOperand(s, SkipSpace(s, p), depth)
  }

  /** The operator loop of tier `k`, left-associative. */
  function ParseLoop(s: string, k: nat, left: Ast, ok: bool, p: nat, depth: nat): (r: Parsed)
    requires 1 <= k <= 4 && p <= |s|
    ensures p <= r.pos <= |s|
    decreases |s| - p, 0
  {
    var q := SkipSpace(s, p);
    var op := OpAt(s, q);
    if op.Some? && Tier(op.value) == k then
      var right := ParseTier(s, k + 1, q + |OpText(op.value)|, depth);
      ParseLoop(s, k, Bin(op.value, left, right.e), ok && right.ok, right.pos, depth)
    else Parsed(left, ok, q)
  }

  function ParseOperand(s: string, p: nat, depth: nat): (r: Parsed)
    requires p <= |s|
    ensures p <= r.pos <= |s|
    decreases |s| - p, 0
  {
    var c := Peek(s, p);
    if c == '-' then
      var r := ParseTier(s, 3, p + 1, depth);
      Parsed(Neg(r.e), r.ok, r.pos)
    else if c == '(' then
      var r := ParseTier(s, 0, p + 1, depth);
      var q := SkipSpace(s, r.pos);
      if Peek(s, q) == ')' then Parsed(r.e, r.ok, q + 1) else Parsed(r.e, false, q)
    else if IsDigit(c) then ParseLiteral(s, p)
    else if IsLetter(c) then ParseName(s, p)
    else Parsed(Bad, false, p)
  }

  /** Only the first 33 characters of a literal count. */
  function ParseLiteral(s: string, p: nat): (r: Parsed)
    requires p <= |s|
    ensures p <= r.pos <= |s|
  {
    var q := LitEnd(s, p);
    var lexeme := if q - p > MAX_LITERAL then s[p..p + MAX_LITERAL] else s[p..q];
    if Literal(lexeme).Some? then Parsed(Num(lexeme), true, q) else Parsed(Bad, false, q)
  }

  /** A name over 31 characters is refused, not truncated. */
  function ParseName(s: string, p: nat): (r: Parsed)
    requires p <= |s|
    ensures p <= r.pos <= |s|
  {
    var q := NameEnd(s, p);
    if q - p > MAX_NAME then Parsed(Bad, false, p + MAX_NAME) else Parsed(Name(s[p..q]), true, q)
  }

  /** A whole expression text: the tree, and whether the text was well formed to
      its end. */
  function ParseText(s: string): (r: (Ast, bool)) {
    var r := ParseTier(s, 0, 0, 0);
    (r.e, r.ok && Peek(s, SkipSpace(s, r.pos)) == '\0')
  }

  // ---- the printer ---------------------------------------------------------------------

  /** Whether `e` needs no parentheses at tier `k`; `f` says a `* / & | ^` follows,
      which a bare unary minus would swallow. */
  predicate Bare(e: Ast, k: nat, f: bool) {
    match e
    case Neg(_) => !f
    case Rev(_) => k == 0
    case Bin(op, _, _) => k <= Tier(op)
    case _ => true
  }

  function Print(e: Ast, k: nat, f: bool): string
    decreases e, 1
  {
    if Bare(e, k, f) then PrintBare(e, f) else "(" + PrintBare(e, false) + ")"
  }

  function PrintBare(e: Ast, f: bool): string
    decreases e, 0
  {
    match e
    case Num(lexeme) => lexeme
    case Name(id) => id
    case Neg(x) => "-" + Print(x, 3, f)
    case Rev(x) => "::" + Print(x, 0, false)
    case Bin(op, l, r) => Print(l, Tier(op), Tier(op) >= 3) + OpText(op) + Print(r, Tier(op) + 1, f)
    case Bad => ""
  }

  function Max(a: nat, b: nat): nat { if a < b then b else a }

  /** How many nested `(` and `::` the printed text opens. */
  function Nesting(e: Ast, k: nat, f: bool): nat
    decreases e, 1
  {
    if Bare(e, k, f) then (if k == 0 then 1 else 0) + NestingBare(e, f) else 1 + NestingBare(e, false)
  }

  function NestingBare(e: Ast, f: bool): nat
    decreases e, 0
  {
    match e
    case Neg(x) => Nesting(x, 3, f)
    case Rev(x) => Nesting(x, 0, false)
    case Bin(op, l, r) => Max(Nesting(l, Tier(op), Tier(op) >= 3), Nesting(r, Tier(op) + 1, f))
    case _ => 0
  }

  /** A literal the scanner takes whole and the number parser accepts. */
  predicate IsLexeme(l: string) {
    && 1 <= |l| <= MAX_LITERAL && IsDigit(l[0])
    && (forall i :: 0 <= i < |l| ==> LitChar(l[i]))
    && Literal(l).Some?
  }

  predicate IsName(id: string) {
    && 1 <= |id| <= MAX_NAME && IsLetter(id[0])
    && forall i :: 0 <= i < |id| ==> NameChar(id[i])
  }

  predicate Good(e: Ast) {
    match e
    case Num(lexeme) => IsLexeme(lexeme)
    case Name(id) => IsName(id)
    case Neg(x) => Good(x)
    case Rev(x) => Good(x)
    case Bin(_, l, r) => Good(l) && Good(r)
    case Bad => false
  }
}
