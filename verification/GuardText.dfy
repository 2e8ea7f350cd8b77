/**
 Printing an expression as tokens, reading tokens back, and the texts `negate`,
 `wrap` and `combineGuards` write.

 `||` binds loosest, then `&&`, then equality, then ordering, all of them
 left-associative; `!` binds tighter, and an assignment looser than all.
 */
module GuardText {
  import opened Basics
  import opened Expressions

  datatype Token =
    | TLit(pos: nat, v: Value)
    | TVar(pos: nat, x: string)
    | TCall(pos: nat, f: string)  // an operation up to its opening parenthesis
    | TComma
    | TOpen
    | TClose
    | TNot
    | TCompare(cmp: Comparator)
    | TAnd
    | TOr
    | TAssign(x: string)          // a target with its `=`

  const ASSIGNMENT := 0
  const OR := 1
  const AND := 2
  const EQUALITY := 3
  const ORDERING := 4
  const UNARY := 5
  const PRIMARY := 6

  function Level(e: Expr): nat {
    match e
    case Assign(_, _) => ASSIGNMENT
    case Or(_, _) => OR
    case And(_, _) => AND
    case Compare(c, _, _) => if c.Ordering() then ORDERING else EQUALITY
    case Not(_) => UNARY
    case _ => PRIMARY
  }

  /** The level of a binary operator; 0 for every other token. */
  function OperatorLevel(t: Token): nat {
    match t
    case TOr => OR
    case TAnd => AND
    case TCompare(c) => if c.Ordering() then ORDERING else EQUALITY
    case _ => 0
  }

  /** Trees a parser can return: an operand that binds looser than its place
      allows stands in parentheses. */
  ghost predicate Shaped(e: Expr) {
    match e
    case Lit(_, _) => true
    case Var(_, _) => true
    case Op(_, _, l, r) => Shaped(l) && Shaped(r)
    case Paren(e1) => Shaped(e1)
    case Not(e1) => Shaped(e1) && Level(e1) >= UNARY
    case Compare(_, l, r) => Shaped(l) && Shaped(r) && Level(l) >= Level(e) && Level(r) > Level(e)
    case And(l, r) => Shaped(l) && Shaped(r) && Level(l) >= AND && Level(r) > AND
    case Or(l, r) => Shaped(l) && Shaped(r) && Level(l) >= OR && Level(r) > OR
    case Assign(_, e1) => Shaped(e1)
  }

  function Print(e: Expr): seq<Token> {
    match e
    case Lit(p, v) => [TLit(p, v)]
    case Var(p, x) => [TVar(p, x)]
    case Op(p, f, l, r) => [TCall(p, f)] + Print(l) + [TComma] + Print(r) + [TClose]
    case Paren(e1) => [TOpen] + Print(e1) + [TClose]
    case Not(e1) => [TNot] + Print(e1)
    case Compare(c, l, r) => Print(l) + [TCompare(c)] + Print(r)
    case And(l, r) => Print(l) + [TAnd] + Print(r)
    case Or(l, r) => Print(l) + [TOr] + Print(r)
    case Assign(x, e1) => [TAssign(x)] + Print(e1)
  }

  type Parsed = Option<(Expr, seq<Token>)>

  function Combine(t: Token, l: Expr, r: Expr): Expr
    requires OperatorLevel(t) > 0
  {
    match t
    case TOr => Or(l, r)
    case TAnd => And(l, r)
    case TCompare(c) => Compare(c, l, r)
  }

  /** Reads one expression of at least the given level from the front of `ts`. */
  function ParseAt(k: nat, ts: seq<Token>): (r: Parsed)
    requires k <= PRIMARY
    ensures r.Some? ==> |r.value.1| < |ts|
    decreases |ts|, PRIMARY - k, 1
  {
    if ts == [] then None
    else if k == ASSIGNMENT then
      if ts[0].TAssign? then
        match ParseAt(ASSIGNMENT, ts[1..])
        case None => None
        case Some((e, rest)) => Some((Assign(ts[0].x, e), rest))
      else ParseAt(OR, ts)
    else if k < UNARY then
      match ParseAt(k + 1, ts)
      case None => None
      case Some((e, rest)) => ParseTail(k, e, rest)
    else if k == UNARY then
      if ts[0].TNot? then
        match ParseAt(UNARY, ts[1..])
        case None => None
        case Some((e, rest)) => Some((Not(e), rest))
      else ParseAt(PRIMARY, ts)
    else ParsePrimary(ts)
  }

  /** Continues a left-associative chain of level k whose first operand is `acc`. */
  function ParseTail(k: nat, acc: Expr, ts: seq<Token>): (r: Parsed)
    requires OR <= k < UNARY
    ensures r.Some? ==> |r.value.1| <= |ts|
    decreases |ts|, PRIMARY - k, 1
  {
    if ts != [] && OperatorLevel(ts[0]) == k then
      match ParseAt(k + 1, ts[1..])
      case None => None
      case Some((e, rest)) => ParseTail(k, Combine(ts[0], acc, e), rest)
    else Some((acc, ts))
  }

  function ParsePrimary(ts: seq<Token>): (r: Parsed)
    requires ts != []
    ensures r.Some? ==> |r.value.1| < |ts|
    decreases |ts|, 0, 0
  {
    match ts[0]
    case TLit(p, v) => Some((Lit(p, v), ts[1..]))
    case TVar(p, x) => Some((Var(p, x), ts[1..]))
    case TOpen =>
      (match ParseAt(ASSIGNMENT, ts[1..])
       case None => None
       case Some((e, rest)) => if rest != [] && rest[0].TClose? then Some((Paren(e), rest[1..])) else None)
    case TCall(p, f) =>
      (match ParseAt(ASSIGNMENT, ts[1..])
       case None => None
       case Some((l, rest)) =>
         if rest == [] || !rest[0].TComma? then None else
         match ParseAt(ASSIGNMENT, rest[1..])
         case None => None
         case Some((r, rest1)) => if rest1 != [] && rest1[0].TClose? then Some((Op(p, f, l, r), rest1[1..])) else None)
    case _ => None
  }

  /** Reads a whole token sequence. */
  function Parse(ts: seq<Token>): Option<Expr> {
    match ParseAt(ASSIGNMENT, ts)
    case None => None
    case Some((e, rest)) => if rest == [] then Some(e) else None
  }

  /** What may follow an expression of level k: nothing that binds tighter. */
  ghost predicate Stops(k: nat, rest: seq<Token>) {
    rest != [] ==> OperatorLevel(rest[0]) <= k
  }

  ghost function Expected(k: nat, e: Expr, rest: seq<Token>): Parsed
    requires k <= PRIMARY
  {
    if OR <= k < UNARY then ParseTail(k, e, rest) else Some((e, rest))
  }

  lemma {:induction false} ParseAfterPrint(k: nat, e: Expr, rest: seq<Token>)
    requires k <= Level(e) && Shaped(e) && Stops(k, rest)
    ensures ParseAt(k, Print(e) + rest) == Expected(k, e, rest)
    decreases e, PRIMARY - k, 1
  {
    if k < Level(e) {
      ParseAfterPrint(k + 1, e, rest);
      ParseOneLevelUp(k, e, rest);
    } else {
      match e
      case Op(p, f, l, r) => ParseOperation(p, f, l, r, rest);
      case Compare(c, l, r) => ParseChain(k, TCompare(c), l, r, rest);
      case And(l, r) => ParseChain(k, TAnd, l, r, rest);
      case Or(l, r) => ParseChain(k, TOr, l, r, rest);
      case _ => ParsePrefixed(k, e, rest);
    }
  }

  lemma {:induction false} ParseOneLevelUp(k: nat, e: Expr, rest: seq<Token>)
    requires k < Level(e) && Shaped(e) && Stops(k, rest)
    requires ParseAt(k + 1, Print(e) + rest) == Expected(k + 1, e, rest)
    ensures ParseAt(k, Print(e) + rest) == Expected(k, e, rest)
  {
    PrintStart(e);
    assert (Print(e) + rest)[0] == Print(e)[0];
  }

  lemma {:induction false} ParsePrefixed(k: nat, e: Expr, rest: seq<Token>)
    requires e.Lit? || e.Var? || e.Paren? || e.Not? || e.Assign?
    requires k == Level(e) && Shaped(e) && Stops(k, rest)
    ensures ParseAt(k, Print(e) + rest) == Expected(k, e, rest)
    decreases e, PRIMARY - k, 0
  {
    var ts := Print(e) + rest;
    match e
    case Paren(e1) =>
      assert ts[1..] == Print(e1) + ([TClose] + rest);
      ParseAfterPrint(ASSIGNMENT, e1, [TClose] + rest);
      assert ([TClose] + rest)[1..] == rest;
    case Not(e1) =>
      assert ts[1..] == Print(e1) + rest;
      ParseAfterPrint(UNARY, e1, rest);
    case Assign(x, e1) =>
      assert ts[1..] == Print(e1) + rest;
      ParseAfterPrint(ASSIGNMENT, e1, rest);
    case Lit(_, _) => assert ts[1..] == rest;
    case Var(_, _) => assert ts[1..] == rest;
    case _ =>
  }

  lemma {:induction false} ParseOperation(p: nat, f: string, l: Expr, r: Expr, rest: seq<Token>)
    requires Shaped(l) && Shaped(r)
    ensures ParseAt(PRIMARY, Print(Op(p, f, l, r)) + rest) == Some((Op(p, f, l, r), rest))
    decreases Op(p, f, l, r), 0, 0
  {
    var ts := Print(Op(p, f, l, r)) + rest;
    var afterLeft := [TComma] + Print(r) + [TClose] + rest;
    assert ts[1..] == Print(l) + afterLeft;
    ParseAfterPrint(ASSIGNMENT, l, afterLeft);
    assert afterLeft[1..] == Print(r) + ([TClose] + rest);
    ParseAfterPrint(ASSIGNMENT, r, [TClose] + rest);
    assert ([TClose] + rest)[1..] == rest;
    assert ts[0] == TCall(p, f);
  }

  lemma {:induction false} ParseChain(k: nat, t: Token, l: Expr, r: Expr, rest: seq<Token>)
    requires OR <= k < UNARY && OperatorLevel(t) == k && Shaped(l) && Shaped(r)
    requires k <= Level(l) && k < Level(r) && Stops(k, rest)
    ensures ParseAt(k, Print(l) + [t] + Print(r) + rest) == ParseTail(k, Combine(t, l, r), rest)
    decreases Combine(t, l, r), 0
  {
    var after := [t] + Print(r) + rest;
    assert Print(l) + [t] + Print(r) + rest == Print(l) + after;
    ParseAfterPrint(k, l, after);
    assert after[1..] == Print(r) + rest;
    ParseAfterPrint(k + 1, r, rest);
  }

  lemma {:induction false} PrintStart(e: Expr)
    ensures Print(e) != [] && OperatorLevel(Print(e)[0]) == 0
    ensures Level(e) > ASSIGNMENT && Shaped(e) ==> !Print(e)[0].TAssign?
    ensures Level(e) > UNARY ==> !Print(e)[0].TNot?
  {
    match e
    case Compare(_, l, _) => PrintStart(l);
    case And(l, _) => PrintStart(l);
    case Or(l, _) => PrintStart(l);
    case _ =>
  }

  /** Printing loses nothing: every tree a parser can return is read back. */
  lemma {:induction false} PrintRoundTrip(e: Expr)
    requires Shaped(e)
    ensures Parse(Print(e)) == Some(e)
  {
    ParseAfterPrint(ASSIGNMENT, e, []);
    assert Print(e) + [] == Print(e);
  }
}
