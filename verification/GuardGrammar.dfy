/**
 What the reader of guard texts accepts: exactly the printed trees, with the operators grouped as their levels say.
 */
module GuardGrammar {
  import opened Basics
  import opened Expressions
  import opened GuardText
  import opened GuardInversion

  // ----- what is read is what is printed -----

  /** Rebuilds an operation from its parts. */
  lemma {:induction false} OperationPrints(p: nat, f: string, l: Expr, r: Expr, rest: seq<Token>)
    ensures [TCall(p, f)] + (Print(l) + ([TComma] + (Print(r) + ([TClose] + rest)))) == Print(Op(p, f, l, r)) + rest
  {
    hide Shaped, Level, ParseAt;
    assert Print(Op(p, f, l, r)) == [TCall(p, f)] + Print(l) + [TComma] + Print(r) + [TClose];
  }

  lemma {:induction false} CallPrints(ts: seq<Token>)
    requires ts != [] && ts[0].TCall? && ParsePrimary(ts).Some?
    ensures var (e, rest) := ParsePrimary(ts).value; ts == Print(e) + rest && Shaped(e) && Level(e) == PRIMARY
    decreases |ts|, 0, 0
  {
    hide ParseAt, ParseTail, Print, Level;
    ParsePrints(ASSIGNMENT, ts[1..]);
    var (l, rest) := ParseAt(ASSIGNMENT, ts[1..]).value;
    ParsePrints(ASSIGNMENT, rest[1..]);
    var (r, rest1) := ParseAt(ASSIGNMENT, rest[1..]).value;
    var e := Op(ts[0].pos, ts[0].f, l, r);
    assert ParsePrimary(ts) == Some((e, rest1[1..]));
    assert ts == [ts[0]] + ts[1..] && rest == [TComma] + rest[1..] && rest1 == [TClose] + rest1[1..];
    OperationPrints(ts[0].pos, ts[0].f, l, r, rest1[1..]);
    OperationLevel(ts[0].pos, ts[0].f, l, r);
  }

  lemma {:induction false} OperationLevel(p: nat, f: string, l: Expr, r: Expr)
    ensures Level(Op(p, f, l, r)) == PRIMARY
  {
  }

  lemma {:induction false} PrimaryPrints(ts: seq<Token>)
    requires ts != [] && ParsePrimary(ts).Some?
    ensures var (e, rest) := ParsePrimary(ts).value; ts == Print(e) + rest && Shaped(e) && Level(e) == PRIMARY
    decreases |ts|, 0, 1
  {
    hide ParseAt, ParseTail;
    assert ts == [ts[0]] + ts[1..];
    if ts[0].TOpen? {
      ParsePrints(ASSIGNMENT, ts[1..]);
      var (e, rest) := ParseAt(ASSIGNMENT, ts[1..]).value;
      assert ts == [TOpen] + (Print(e) + ([TClose] + rest[1..]));
    } else if ts[0].TCall? {
      CallPrints(ts);
    }
  }

  lemma {:induction false} CombinePrints(t: Token, l: Expr, r: Expr)
    requires OperatorLevel(t) > 0
    ensures Print(Combine(t, l, r)) == Print(l) + [t] + Print(r)
  {
    hide Shaped, Level, ParseAt;
    match t
    case TOr =>
    case TAnd =>
    case TCompare(c) =>
  }

  lemma {:induction false} CombineLevel(t: Token, l: Expr, r: Expr)
    requires OperatorLevel(t) > 0
    ensures Level(Combine(t, l, r)) == OperatorLevel(t)
  {
    hide Shaped, Print, ParseAt;
  }

  lemma {:induction false} CombineShaped(t: Token, l: Expr, r: Expr)
    requires OperatorLevel(t) > 0 && Shaped(l) && Shaped(r)
    requires Level(l) >= OperatorLevel(t) && Level(r) > OperatorLevel(t)
    ensures Shaped(Combine(t, l, r))
  {
    hide Print;
  }

  lemma {:induction false} TailPrints(k: nat, acc: Expr, ts: seq<Token>)
    requires OR <= k < UNARY && ParseTail(k, acc, ts).Some? && Shaped(acc) && Level(acc) >= k
    ensures var (e, rest) := ParseTail(k, acc, ts).value;
      Print(acc) + ts == Print(e) + rest && Shaped(e) && Level(e) >= k
    decreases |ts|, PRIMARY - k, 2
  {
    hide ParseAt, Print, Shaped, Level, Combine;
    if ts != [] && OperatorLevel(ts[0]) == k {
      assert ts == [ts[0]] + ts[1..];
      ParsePrints(k + 1, ts[1..]);
      var (e, rest) := ParseAt(k + 1, ts[1..]).value;
      CombinePrints(ts[0], acc, e);
      CombineLevel(ts[0], acc, e);
      CombineShaped(ts[0], acc, e);
      TailPrints(k, Combine(ts[0], acc, e), rest);
      assert Print(acc) + ts == (Print(acc) + [ts[0]] + Print(e)) + rest;
    }
  }

  /** What is read from the front is what the tree read prints as, and the tree is one a parser can return. */
  lemma {:induction false} ParsePrints(k: nat, ts: seq<Token>)
    requires k <= PRIMARY && ParseAt(k, ts).Some?
    ensures var (e, rest) := ParseAt(k, ts).value; ts == Print(e) + rest && Shaped(e) && Level(e) >= k
    decreases |ts|, PRIMARY - k, 2
  {
    if k == ASSIGNMENT {
      if ts[0].TAssign? {
        ParsePrints(ASSIGNMENT, ts[1..]);
        var (e, rest) := ParseAt(ASSIGNMENT, ts[1..]).value;
        assert ts == [ts[0]] + (Print(e) + rest);
      } else {
        ParsePrints(OR, ts);
      }
    } else if k < UNARY {
      ParsePrints(k + 1, ts);
      var (e, rest) := ParseAt(k + 1, ts).value;
      TailPrints(k, e, rest);
    } else if k == UNARY {
      if ts[0].TNot? {
        ParsePrints(UNARY, ts[1..]);
        var (e, rest) := ParseAt(UNARY, ts[1..]).value;
        assert ts == [TNot] + (Print(e) + rest);
      } else {
        ParsePrints(PRIMARY, ts);
      }
    } else {
      PrimaryPrints(ts);
    }
  }

  /** A text reads as a tree exactly when it is that tree printed and the tree is one a parser can return. */
  lemma {:induction false} ParsesExactly(ts: seq<Token>, e: Expr)
    ensures Parse(ts) == Some(e) <==> Shaped(e) && Print(e) == ts
  {
    if Parse(ts) == Some(e) { ParsePrints(ASSIGNMENT, ts); assert Print(e) + [] == Print(e); }
    if Shaped(e) { PrintRoundTrip(e); }
  }

  // ----- how operators group -----

  predicate IsEquality(c: Comparator) { c.StrictEq? || c.StrictNe? || c.LooseEq? || c.LooseNe? }

  /** `s` binds looser than `t`: `||` looser than `&&`, this looser than equality, and that looser than ordering. */
  predicate Looser(s: Token, t: Token) {
    || (s.TOr? && (t.TAnd? || t.TCompare?))
    || (s.TAnd? && t.TCompare?)
    || (s.TCompare? && t.TCompare? && IsEquality(s.cmp) && !IsEquality(t.cmp))
  }

  predicate IsBinary(t: Token) { t.TOr? || t.TAnd? || t.TCompare? }

  function Joined(t: Token, l: Expr, r: Expr): Expr
    requires IsBinary(t)
  {
    if t.TOr? then Or(l, r) else if t.TAnd? then And(l, r) else Compare(t.cmp, l, r)
  }

  /** Two operators group to the left, unless the first binds looser than the second; `!` takes its operand alone. */
  lemma {:induction false} OperatorsGroup(a: Expr, b: Expr, c: Expr, s: Token, t: Token)
    requires a.Var? && b.Var? && c.Var? && IsBinary(s) && IsBinary(t)
    ensures Parse(Print(a) + [s] + Print(b) + [t] + Print(c))
         == Some(if Looser(s, t) then Joined(s, a, Joined(t, b, c)) else Joined(t, Joined(s, a, b), c))
    ensures Parse([TNot] + Print(a) + [s] + Print(b)) == Some(Joined(s, Not(a), b))
  {
    var e := if Looser(s, t) then Joined(s, a, Joined(t, b, c)) else Joined(t, Joined(s, a, b), c);
    assert Print(e) == Print(a) + [s] + Print(b) + [t] + Print(c);
    PrintRoundTrip(e);
    PrintRoundTrip(Joined(s, Not(a), b));
  }

  // ----- where a conjunct gets parentheses -----

  /** Without parentheses around it. */
  function Bare(e: Expr): Expr {
    match e
    case Paren(inner) => Bare(inner)
    case _ => e
  }

  /** A negated guard is put in parentheses exactly when, without those it has, it is a disjunction. */
  lemma {:induction false} ParenthesesWhen(g: Expr)
    ensures Wrap(Negate(g), PREC_AND) ==
      if Bare(NegTree(g)).Or? then [TOpen] + Negate(g).text + [TClose] else Negate(g).text
  {
    match g
    case Paren(e) => ParenthesesWhen(e);
    case Not(operand) => BareIsUnwrapped(operand);
    case _ =>
  }

  lemma {:induction false} BareIsUnwrapped(e: Expr)
    ensures Unwrap(e) == Bare(e)
  {
    if e.Paren? { BareIsUnwrapped(e.e); }
  }
}
