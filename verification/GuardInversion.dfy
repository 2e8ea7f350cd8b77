/**
 Turning leading guards `if (c) return;` into one positive condition: the texts
 `negate`, `wrap` and `combineGuards` write, what they mean once read back, and
 exactly when that meaning is right.
 */
module GuardInversion {
  import opened Basics
  import opened Expressions
  import opened GuardText

  datatype Negated = Negated(text: seq<Token>, prec: nat)

  const PREC_OR := 1
  const PREC_AND := 2
  const PREC_ATOM := 3

  function Flip(c: Comparator): Comparator {
    match c
    case StrictEq => StrictNe
    case StrictNe => StrictEq
    case LooseEq => LooseNe
    case LooseNe => LooseEq
    case Lt => Ge
    case Gt => Le
    case Le => Gt
    case Ge => Lt
  }

  function Unwrap(e: Expr): Expr {
    if e.Paren? then Unwrap(e.e) else e
  }

  function LogicalPrec(e: Expr): nat {
    match Unwrap(e)
    case Or(_, _) => PREC_OR
    case And(_, _) => PREC_AND
    case _ => PREC_ATOM
  }

  function Wrap(part: Negated, minPrec: nat): seq<Token> {
    if part.prec < minPrec then [TOpen] + part.text + [TClose] else part.text
  }

  function Negate(e: Expr): Negated {
    match e
    case Paren(e1) => Negate(e1)
    case Not(operand) => Negated(Print(operand), LogicalPrec(operand))
    case Compare(c, l, r) => Negated(Print(l) + [TCompare(Flip(c))] + Print(r), PREC_ATOM)
    case And(l, r) => Negated(Negate(l).text + [TOr] + Negate(r).text, PREC_OR)
    case Or(l, r) =>
      Negated(Wrap(Negate(l), PREC_AND) + [TAnd] + Wrap(Negate(r), PREC_AND), PREC_AND)
    case _ => Negated([TNot, TOpen] + Print(e) + [TClose], PREC_ATOM)
  }

  function JoinAnd(guards: seq<Expr>): seq<Token>
    requires guards != []
    decreases |guards|
  {
    var n := |guards| - 1;
    var last := Wrap(Negate(guards[n]), PREC_AND);
    if n == 0 then last else JoinAnd(guards[..n]) + [TAnd] + last
  }

  function CombineGuards(guards: seq<Expr>): seq<Token>
    requires guards != []
  {
    if |guards| == 1 then Negate(guards[0]).text else JoinAnd(guards)
  }

  // ----- the trees those texts are read back as -----

  /** `x || y` written without parentheses and read back: y's own top-level `||`
      associate to the left. */
  function GraftOr(x: Expr, y: Expr): Expr {
    if y.Or? then Or(GraftOr(x, y.l), y.r) else Or(x, y)
  }

  function GraftAnd(x: Expr, y: Expr): Expr {
    if y.And? then And(GraftAnd(x, y.l), y.r) else And(x, y)
  }

  function WrapTree(e: Expr, prec: nat): Expr {
    if prec < PREC_AND then Paren(e) else e
  }

  function NegTree(e: Expr): Expr {
    match e
    case Paren(e1) => NegTree(e1)
    case Not(operand) => operand
    case Compare(c, l, r) => Compare(Flip(c), l, r)
    case And(l, r) => GraftOr(NegTree(l), NegTree(r))
    case Or(l, r) =>
      GraftAnd(WrapTree(NegTree(l), Negate(l).prec), WrapTree(NegTree(r), Negate(r).prec))
    case _ => Not(Paren(e))
  }

  function WrappedNeg(g: Expr): Expr { WrapTree(NegTree(g), Negate(g).prec) }

  function JoinTree(guards: seq<Expr>): Expr
    requires guards != []
    decreases |guards|
  {
    var n := |guards| - 1;
    if n == 0 then WrappedNeg(guards[0])
    else GraftAnd(JoinTree(guards[..n]), WrappedNeg(guards[n]))
  }

  function RunCondition(guards: seq<Expr>): Expr
    requires guards != []
  {
    if |guards| == 1 then NegTree(guards[0]) else JoinTree(guards)
  }

  // ----- the text reads back as that tree -----

  lemma {:induction false} Regroup(a: seq<Token>, op: seq<Token>, b: seq<Token>, c: seq<Token>)
    ensures (a + op + b) + op + c == a + op + (b + op + c)
  {
  }

  lemma {:induction false} GraftOrShape(x: Expr, y: Expr)
    requires Shaped(x) && Shaped(y) && Level(x) >= OR && Level(y) >= OR
    ensures Shaped(GraftOr(x, y)) && GraftOr(x, y).Or?
    ensures Print(GraftOr(x, y)) == Print(x) + [TOr] + Print(y)
  {
    if y.Or? {
      GraftOrShape(x, y.l);
      Regroup(Print(x), [TOr], Print(y.l), Print(y.r));
    }
  }

  lemma {:induction false} GraftAndShape(x: Expr, y: Expr)
    requires Shaped(x) && Shaped(y) && Level(x) >= AND && Level(y) >= AND
    ensures Shaped(GraftAnd(x, y)) && GraftAnd(x, y).And?
    ensures Print(GraftAnd(x, y)) == Print(x) + [TAnd] + Print(y)
  {
    if y.And? {
      GraftAndShape(x, y.l);
      Regroup(Print(x), [TAnd], Print(y.l), Print(y.r));
    }
  }

  lemma {:induction false} NegateReadsBack(e: Expr)
    requires Shaped(e)
    ensures Shaped(NegTree(e)) && Level(NegTree(e)) >= OR
    ensures Negate(e).prec >= PREC_AND ==> Level(NegTree(e)) >= AND
    ensures Print(NegTree(e)) == Negate(e).text
    ensures Shaped(WrappedNeg(e)) && Level(WrappedNeg(e)) >= AND
    ensures Print(WrappedNeg(e)) == Wrap(Negate(e), PREC_AND)
  {
    match e
    case Paren(e1) => NegateReadsBack(e1);
    case And(l, r) =>
      NegateReadsBack(l);
      NegateReadsBack(r);
      GraftOrShape(NegTree(l), NegTree(r));
    case Or(l, r) =>
      NegateReadsBack(l);
      NegateReadsBack(r);
      GraftAndShape(WrappedNeg(l), WrappedNeg(r));
    case Not(_) =>
    case Compare(_, _, _) =>
    case _ =>
      assert Print(Not(Paren(e))) == [TNot] + ([TOpen] + Print(e) + [TClose]);
  }

  lemma {:induction false} JoinReadsBack(guards: seq<Expr>)
    requires guards != [] && forall g :: g in guards ==> Shaped(g)
    ensures Shaped(JoinTree(guards)) && Level(JoinTree(guards)) >= AND
    ensures Print(JoinTree(guards)) == JoinAnd(guards)
    decreases |guards|
  {
    var n := |guards| - 1;
    NegateReadsBack(guards[n]);
    if n > 0 {
      JoinReadsBack(guards[..n]);
      GraftAndShape(JoinTree(guards[..n]), WrappedNeg(guards[n]));
    }
  }

  /** The text `combineGuards` writes is one complete expression, and reads back
      as `RunCondition`. */
  lemma {:induction false} CombineGuardsReadsBack(guards: seq<Expr>)
    requires guards != [] && forall g :: g in guards ==> Shaped(g)
    ensures Parse(CombineGuards(guards)) == Some(RunCondition(guards))
  {
    if |guards| == 1 {
      NegateReadsBack(guards[0]);
    } else {
      JoinReadsBack(guards);
    }
    PrintRoundTrip(RunCondition(guards));
  }

  // ----- reassociation is harmless -----

  lemma {:induction false} GraftOrMeans(x: Expr, y: Expr, w: World, env: Env, st: State)
    ensures Eval(w, GraftOr(x, y), env, st) == Eval(w, Or(x, y), env, st)
    ensures Log(w, GraftOr(x, y), env, st) == Log(w, Or(x, y), env, st)
    decreases y
  {
    if y.Or? {
      GraftOrMeans(x, y.l, w, env, st);
    }
  }

  lemma {:induction false} GraftAndMeans(x: Expr, y: Expr, w: World, env: Env, st: State)
    ensures Eval(w, GraftAnd(x, y), env, st) == Eval(w, And(x, y), env, st)
    ensures Log(w, GraftAnd(x, y), env, st) == Log(w, And(x, y), env, st)
    decreases y
  {
    if y.And? {
      GraftAndMeans(x, y.l, w, env, st);
    }
  }

  // ----- one guard -----

  /** One run of an expression: what it yields, the state it leaves, and the
      positions it evaluates. */
  datatype Run = Run(out: Outcome, end: State, log: seq<nat>)

  function RunOf(w: World, e: Expr, env: Env, st: State): Run {
    Run(Eval(w, e, env, st).0, Eval(w, e, env, st).1, Log(w, e, env, st))
  }

  /** The opposite truth value (or the same error), after evaluating the same positions. */
  ghost predicate LooksOpposite(a: Run, b: Run) {
    && a.log == b.log
    && (if a.out.Norm? then b.out.Norm? && Truthy(b.out.v) == !Truthy(a.out.v) else b.out == a.out)
  }

  /** The same in every respect, effects and store included. */
  ghost predicate Opposite(a: Run, b: Run) {
    a.end == b.end && LooksOpposite(a, b)
  }

  /** In this run, no ordering comparison that `negate` flips met an unordered pair. */
  ghost predicate Ordered(w: World, e: Expr, env: Env, st: State) {
    match e
    case Paren(e1) => Ordered(w, e1, env, st)
    case Compare(c, l, r) =>
      var (a, st1) := Eval(w, l, env, st);
      a.Norm? ==>
        var b := Eval(w, r, env, st1).0;
        b.Norm? ==> OrderedPair(w, c, a.v, b.v)
    case And(l, r) =>
      && Ordered(w, l, env, st)
      && var (a, st1) := Eval(w, l, env, st);
         a.Norm? && Truthy(a.v) ==> Ordered(w, r, env, st1)
    case Or(l, r) =>
      && Ordered(w, l, env, st)
      && var (a, st1) := Eval(w, l, env, st);
         a.Norm? && !Truthy(a.v) ==> Ordered(w, r, env, st1)
    case _ => true
  }

  /** The connectives themselves, before reassociation. */
  lemma {:induction false} NegTreeMeans(l: Expr, r: Expr, w: World, env: Env, st: State)
    ensures RunOf(w, NegTree(And(l, r)), env, st) == RunOf(w, Or(NegTree(l), NegTree(r)), env, st)
    ensures RunOf(w, NegTree(Or(l, r)), env, st) == RunOf(w, And(NegTree(l), NegTree(r)), env, st)
  {
    GraftOrMeans(NegTree(l), NegTree(r), w, env, st);
    GraftAndMeans(WrappedNeg(l), WrappedNeg(r), w, env, st);
  }

  lemma {:induction false} FlipHolds(w: World, c: Comparator, a: Value, b: Value)
    ensures Holds(w, Flip(c), a, b) == !Holds(w, c, a, b) <==> OrderedPair(w, c, a, b)
  {
  }

  lemma {:induction false} NegateOpposite(w: World, e: Expr, env: Env, st: State)
    requires Ordered(w, e, env, st)
    ensures Opposite(RunOf(w, e, env, st), RunOf(w, NegTree(e), env, st))
  {
    match e
    case Paren(e1) => NegateOpposite(w, e1, env, st);
    case And(l, r) =>
      NegTreeMeans(l, r, w, env, st);
      NegateOpposite(w, l, env, st);
      var (a, st1) := Eval(w, l, env, st);
      if a.Norm? && Truthy(a.v) {
        NegateOpposite(w, r, env, st1);
      }
    case Or(l, r) =>
      NegTreeMeans(l, r, w, env, st);
      NegateOpposite(w, l, env, st);
      var (a, st1) := Eval(w, l, env, st);
      if a.Norm? && !Truthy(a.v) {
        NegateOpposite(w, r, env, st1);
      }
    case _ => LeafOpposite(w, e, env, st);
  }

  /** What is not a connective: a comparison is flipped, anything else gets a `!`. */
  lemma {:induction false} LeafOpposite(w: World, e: Expr, env: Env, st: State)
    requires !e.Paren? && !e.And? && !e.Or?
    ensures LooksOpposite(RunOf(w, e, env, st), RunOf(w, NegTree(e), env, st)) <==> Ordered(w, e, env, st)
    ensures RunOf(w, e, env, st).end == RunOf(w, NegTree(e), env, st).end
  {
    if e.Compare? {
      hide Holds, OrderedPair;
      var (a, st1) := Eval(w, e.l, env, st);
      if a.Norm? {
        var b := Eval(w, e.r, env, st1).0;
        if b.Norm? {
          FlipHolds(w, e.cmp, a.v, b.v);
        }
      }
    } else if !e.Not? {
      assert Eval(w, Paren(e), env, st) == Eval(w, e, env, st);
      assert Log(w, Paren(e), env, st) == Log(w, e, env, st);
    }
  }

  lemma {:induction false} GraftPositions(x: Expr, y: Expr)
    ensures Positions(GraftOr(x, y)) == Positions(x) + Positions(y)
    ensures Positions(GraftAnd(x, y)) == Positions(x) + Positions(y)
    decreases y
  {
    if y.Or? || y.And? {
      GraftPositions(x, y.l);
    }
  }

  lemma {:induction false} NegTreePositions(e: Expr)
    ensures Positions(NegTree(e)) == Positions(e)
  {
    match e
    case Paren(e1) => NegTreePositions(e1);
    case And(l, r) =>
      NegTreePositions(l);
      NegTreePositions(r);
      GraftPositions(NegTree(l), NegTree(r));
    case Or(l, r) =>
      NegTreePositions(l);
      NegTreePositions(r);
      GraftPositions(WrappedNeg(l), WrappedNeg(r));
    case _ =>
  }

  lemma {:induction false} LongerFront(a: seq<nat>, b: seq<nat>, c: seq<nat>, d: seq<nat>)
    requires a + b == c + d && |a| < |c|
    ensures exists p :: p in b && p in c
  {
    assert (a + b)[|a|] == (c + d)[|a|];
    assert (a + b)[|a|] in b && (c + d)[|a|] in c;
  }

  /** Two logs over disjoint positions can be told apart in their concatenation. */
  lemma {:induction false} SplitLogs(a: seq<nat>, b: seq<nat>, c: seq<nat>, d: seq<nat>, left: set<nat>,
    right: set<nat>)
    requires left !! right
    requires (forall p :: p in a ==> p in left) && (forall p :: p in c ==> p in left)
    requires (forall p :: p in b ==> p in right) && (forall p :: p in d ==> p in right)
    requires a + b == c + d
    ensures a == c && b == d
  {
    if |a| < |c| {
      LongerFront(a, b, c, d);
    } else if |c| < |a| {
      LongerFront(c, d, a, b);
    }
    assert a == (a + b)[..|a|] && c == (c + d)[..|c|];
    assert b == (a + b)[|a|..] && d == (c + d)[|c|..];
  }

  /** If two connectives look opposite, so do their first operands. */
  lemma {:induction false} FirstOperandOpposite(w: World, l: Expr, r: Expr, env: Env, st: State, both: bool)
    requires Positions(l) !! Positions(r)
    requires both ==> LooksOpposite(RunOf(w, And(l, r), env, st), RunOf(w, Or(NegTree(l), NegTree(r)), env, st))
    requires !both ==> LooksOpposite(RunOf(w, Or(l, r), env, st), RunOf(w, And(NegTree(l), NegTree(r)), env, st))
    ensures LooksOpposite(RunOf(w, l, env, st), RunOf(w, NegTree(l), env, st))
    ensures var (a, s1) := Eval(w, l, env, st);
      a.Norm? && Truthy(a.v) == both ==> Log(w, r, env, s1) == Log(w, NegTree(r), env, Eval(w, NegTree(l), env, st).1)
  {
    var nl, nr := NegTree(l), NegTree(r);
    var (a, s1) := Eval(w, l, env, st);
    var (b, s2) := Eval(w, nl, env, st);
    NegTreePositions(l);
    NegTreePositions(r);
    LogWithinPositions(w, l, env, st);
    LogWithinPositions(w, nl, env, st);
    LogWithinPositions(w, r, env, s1);
    LogWithinPositions(w, nr, env, s2);
    LogIsNonEmpty(w, r, env, s1);
    LogIsNonEmpty(w, nr, env, s2);
    var restA := if a.Thrown? || Truthy(a.v) != both then [] else Log(w, r, env, s1);
    var restB := if b.Thrown? || Truthy(b.v) == both then [] else Log(w, nr, env, s2);
    SplitLogs(Log(w, l, env, st), restA, Log(w, nl, env, st), restB, Positions(l), Positions(r));
  }

  /** The converse of `NegateOpposite`: an unordered pair is always visible. */
  lemma {:induction false} OppositeNeedsOrder(w: World, e: Expr, env: Env, st: State)
    requires DistinctPositions(e)
    requires LooksOpposite(RunOf(w, e, env, st), RunOf(w, NegTree(e), env, st))
    ensures Ordered(w, e, env, st)
  {
    match e
    case Paren(e1) => OppositeNeedsOrder(w, e1, env, st);
    case And(l, r) =>
      NegTreeMeans(l, r, w, env, st);
      FirstOperandOpposite(w, l, r, env, st, true);
      OppositeNeedsOrder(w, l, env, st);
      NegateOpposite(w, l, env, st);
      var (a, st1) := Eval(w, l, env, st);
      if a.Norm? && Truthy(a.v) {
        OppositeNeedsOrder(w, r, env, st1);
      }
    case Or(l, r) =>
      NegTreeMeans(l, r, w, env, st);
      FirstOperandOpposite(w, l, r, env, st, false);
      OppositeNeedsOrder(w, l, env, st);
      NegateOpposite(w, l, env, st);
      var (a, st1) := Eval(w, l, env, st);
      if a.Norm? && !Truthy(a.v) {
        OppositeNeedsOrder(w, r, env, st1);
      }
    case _ => LeafOpposite(w, e, env, st);
  }

  // ----- a run of guards -----

  /** Runs `if (g) return;` for each guard in turn; `out` is Bool(true) when one of them fired. */
  function RunGuards(w: World, guards: seq<Expr>, env: Env, st: State): Run
    decreases |guards|
  {
    if guards == [] then Run(Norm(Bool(false)), st, [])
    else
      var n := |guards| - 1;
      var before := RunGuards(w, guards[..n], env, st);
      if before.out.Thrown? || Truthy(before.out.v) then before else
      var last := RunOf(w, guards[n], env, before.end);
      Run(if last.out.Thrown? then last.out else Norm(Bool(Truthy(last.out.v))), last.end, before.log + last.log)
  }

  ghost predicate GuardsOrdered(w: World, guards: seq<Expr>, env: Env, st: State)
    decreases |guards|
  {
    guards == [] ||
    var n := |guards| - 1;
    && GuardsOrdered(w, guards[..n], env, st)
    && var before := RunGuards(w, guards[..n], env, st);
       before.out.Norm? && !Truthy(before.out.v) ==> Ordered(w, guards[n], env, before.end)
  }

  function GuardPositions(guards: seq<Expr>): set<nat> {
    set g, p | g in guards && p in Positions(g) :: p
  }

  ghost predicate GuardsDistinct(guards: seq<Expr>)
    decreases |guards|
  {
    guards == [] ||
    var n := |guards| - 1;
    && GuardsDistinct(guards[..n]) && DistinctPositions(guards[n])
    && GuardPositions(guards[..n]) !! Positions(guards[n])
  }

  lemma {:induction false} OneGuard(w: World, g: Expr, env: Env, st: State)
    ensures var run, alone := RunGuards(w, [g], env, st), RunOf(w, g, env, st);
      run.end == alone.end && run.log == alone.log
      && run.out == if alone.out.Thrown? then alone.out else Norm(Bool(Truthy(alone.out.v)))
    ensures GuardsOrdered(w, [g], env, st) <==> Ordered(w, g, env, st)
  {
    assert [g][..0] == [];
    assert [] + Log(w, g, env, st) == Log(w, g, env, st);
  }

  lemma {:induction false} JoinOpposite(w: World, guards: seq<Expr>, env: Env, st: State)
    requires guards != [] && GuardsOrdered(w, guards, env, st)
    ensures Opposite(RunGuards(w, guards, env, st), RunOf(w, JoinTree(guards), env, st))
    decreases |guards|
  {
    var n := |guards| - 1;
    var before := RunGuards(w, guards[..n], env, st);
    if before.out.Norm? && !Truthy(before.out.v) {
      NegateOpposite(w, guards[n], env, before.end);
    }
    if n > 0 {
      JoinOpposite(w, guards[..n], env, st);
      GraftAndMeans(JoinTree(guards[..n]), WrappedNeg(guards[n]), w, env, st);
    } else {
      OneGuard(w, guards[0], env, st);
      assert guards == [guards[0]];
    }
  }

  lemma {:induction false} JoinPositions(guards: seq<Expr>)
    requires guards != []
    ensures Positions(JoinTree(guards)) == GuardPositions(guards)
    decreases |guards|
  {
    var n := |guards| - 1;
    NegTreePositions(guards[n]);
    assert guards == guards[..n] + [guards[n]];
    if n > 0 {
      JoinPositions(guards[..n]);
      GraftPositions(JoinTree(guards[..n]), WrappedNeg(guards[n]));
    }
  }

  lemma {:induction false} GuardLogWithin(w: World, guards: seq<Expr>, env: Env, st: State)
    ensures forall p :: p in RunGuards(w, guards, env, st).log ==> p in GuardPositions(guards)
    decreases |guards|
  {
    if guards != [] {
      var n := |guards| - 1;
      GuardLogWithin(w, guards[..n], env, st);
      LogWithinPositions(w, guards[n], env, RunGuards(w, guards[..n], env, st).end);
      assert guards == guards[..n] + [guards[n]];
    }
  }

  lemma {:induction false} JoinNeedsOrder(w: World, guards: seq<Expr>, env: Env, st: State)
    requires guards != [] && GuardsDistinct(guards)
    requires LooksOpposite(RunGuards(w, guards, env, st), RunOf(w, JoinTree(guards), env, st))
    ensures GuardsOrdered(w, guards, env, st)
    decreases |guards|
  {
    var n := |guards| - 1;
    if n == 0 {
      OneGuard(w, guards[0], env, st);
      assert guards == [guards[0]];
      OppositeNeedsOrder(w, guards[0], env, st);
    } else {
      var front, back := JoinTree(guards[..n]), WrappedNeg(guards[n]);
      GraftAndMeans(front, back, w, env, st);
      var a := RunGuards(w, guards[..n], env, st);
      var b := RunOf(w, front, env, st);
      JoinPositions(guards[..n]);
      NegTreePositions(guards[n]);
      GuardLogWithin(w, guards[..n], env, st);
      LogWithinPositions(w, front, env, st);
      LogWithinPositions(w, guards[n], env, a.end);
      LogWithinPositions(w, back, env, b.end);
      LogIsNonEmpty(w, guards[n], env, a.end);
      LogIsNonEmpty(w, back, env, b.end);
      var restA := if a.out.Thrown? || Truthy(a.out.v) then [] else Log(w, guards[n], env, a.end);
      var restB := if b.out.Thrown? || !Truthy(b.out.v) then [] else Log(w, back, env, b.end);
      SplitLogs(a.log, restA, b.log, restB, GuardPositions(guards[..n]), Positions(guards[n]));
      JoinNeedsOrder(w, guards[..n], env, st);
      JoinOpposite(w, guards[..n], env, st);
      if a.out.Norm? && !Truthy(a.out.v) {
        OppositeNeedsOrder(w, guards[n], env, a.end);
      }
    }
  }

  lemma {:induction false} InvertedGuardsSound(w: World, guards: seq<Expr>, env: Env, st: State)
    requires guards != [] && GuardsOrdered(w, guards, env, st)
    requires forall g :: g in guards ==> Shaped(g)
    ensures Parse(CombineGuards(guards)) == Some(RunCondition(guards))
    ensures Opposite(RunGuards(w, guards, env, st), RunOf(w, RunCondition(guards), env, st))
  {
    CombineGuardsReadsBack(guards);
    if |guards| == 1 {
      OneGuard(w, guards[0], env, st);
      assert guards == [guards[0]];
      NegateOpposite(w, guards[0], env, st);
    } else {
      JoinOpposite(w, guards, env, st);
    }
  }

  /** Guard inversion is right exactly when no ordering comparison it flips meets
      an unordered pair: then the text `combineGuards` writes is truthy exactly
      when no guard fires, evaluates the same positions in the same order, and
      leaves the same store and history.  Otherwise a caller can see the difference. */
  lemma {:induction false} InvertedGuardsExact(w: World, guards: seq<Expr>, env: Env, st: State)
    requires guards != [] && GuardsDistinct(guards)
    requires forall g :: g in guards ==> Shaped(g)
    ensures Parse(CombineGuards(guards)).Some?
    ensures var condition := Parse(CombineGuards(guards)).value;
      Opposite(RunGuards(w, guards, env, st), RunOf(w, condition, env, st))
      <==> GuardsOrdered(w, guards, env, st)
  {
    CombineGuardsReadsBack(guards);
    if GuardsOrdered(w, guards, env, st) {
      InvertedGuardsSound(w, guards, env, st);
    } else if Opposite(RunGuards(w, guards, env, st), RunOf(w, RunCondition(guards), env, st)) {
      if |guards| == 1 {
        OneGuard(w, guards[0], env, st);
        assert guards == [guards[0]];
        OppositeNeedsOrder(w, guards[0], env, st);
      } else {
        JoinNeedsOrder(w, guards, env, st);
      }
    }
  }

  /** The condition fails for real: `if (NaN < 1) return;` runs the tail, and the
      inverted `if (NaN >= 1)` does not. */
  lemma {:induction false} NaNGuardFlipsWrongly(w: World, env: Env, st: State)
    requires forall v: Value :: w.less(NaN, v) == Unordered
    ensures var g := Compare(Lt, Lit(0, NaN), Lit(1, Num(1)));
      && Parse(CombineGuards([g])) == Some(Compare(Ge, Lit(0, NaN), Lit(1, Num(1))))
      && RunGuards(w, [g], env, st).out == Norm(Bool(false))
      && Eval(w, Compare(Ge, Lit(0, NaN), Lit(1, Num(1))), env, st).0 == Norm(Bool(false))
  {
    var g := Compare(Lt, Lit(0, NaN), Lit(1, Num(1)));
    CombineGuardsReadsBack([g]);
    OneGuard(w, g, env, st);
  }
}
