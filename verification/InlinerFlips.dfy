/**
 Helpers that return early on an ordering comparison: inlining keeps what the
 module does exactly when the call compares an ordered pair.
 */
module InlinerFlips {
  import opened Basics
  import opened Expressions
  import opened GuardText
  import opened GuardInversion
  import opened Programs
  import opened Inliner
  import opened InlinerMemory
  import opened InlinerNames
  import opened InlinerOrder
  import opened InlinerSim
  import opened InlinerSite
  import opened InlinerTheorems
  import opened InlinerHygiene
  import opened InlinerCaptures

  /** `x` compared with a literal. */
  function BoundGuard(cmp: Comparator, bound: Value): Expr { Compare(cmp, Var(0, "x"), Lit(1, bound)) }

  const USE := Op(1, "use", Var(2, "x"), Var(3, "x"))

  const USE_TAIL := [ExprS(USE)]

  /** `h(x) { if (x < bound) return; use(x, x); }`, with any ordering comparison. */
  function BoundHelper(cmp: Comparator, bound: Value): Fun {
    Fun("h", ["x"], [If(BoundGuard(cmp, bound), [Jump(Return)], [])] + USE_TAIL, false)
  }

  function Bounded(cmp: Comparator, bound: Value): Candidate {
    Candidate(BoundHelper(cmp, bound), [BoundGuard(cmp, bound)], USE_TAIL)
  }

  function BoundModule(cmp: Comparator, bound: Value, v: Value): Program {
    CallingModule([], BoundHelper(cmp, bound), [], Some(v))
  }

  lemma {:induction false} UseShape()
    ensures Declared(USE_TAIL) == [] && LeadingGuards(USE_TAIL) == [] && FreeStmts(USE_TAIL) == {"x"}
    ensures WritesStmts(USE_TAIL) == {}
    ensures StmtsNames(USE_TAIL) == {"x"} && LocalsStmts(USE_TAIL) == {} && NoEscape(USE_TAIL, false)
    ensures CallsNone(USE_TAIL, "h")
    ensures Elements<string>([]) == {}
  {
    OneExpr(USE);
    TwoReads("x", "x");
  }

  lemma {:induction false} GuardShape(cmp: Comparator, x: string, bound: Value)
    ensures var g := Compare(cmp, Var(0, x), Lit(1, bound));
      Names(g) == {x} && Writes(g) == {} && Shaped(g)
  {
    var l, r := Var(0, x), Lit(1, bound);
    assert Names(l) == {x} && Names(r) == {} && Writes(l) == {} && Writes(r) == {};
    assert Shaped(l) && Shaped(r) && Level(l) > Level(Compare(cmp, l, r)) && Level(r) > Level(Compare(cmp, l, r));
  }

  lemma {:induction false} BoundShape(cmp: Comparator, bound: Value)
    ensures var body := BoundHelper(cmp, bound).body;
      && body[1..] == USE_TAIL && Declared(body) == [] && LeadingGuards(body) == [BoundGuard(cmp, bound)]
      && FreeStmts(body) == {"x"} && WritesStmts(body) == {} && LocalsStmts(body) == {} && StmtsNames(body) == {"x"}
      && CallsNone(body, "h")
  {
    UseShape();
    JumpShape();
    var body := BoundHelper(cmp, bound).body;
    var guard := body[0];
    assert body[1..] == USE_TAIL;
    assert Declared(body) == Declared(USE_TAIL);
    assert LeadingGuards(body) == [BoundGuard(cmp, bound)] + LeadingGuards(USE_TAIL);
    GuardShape(cmp, "x", bound);
    assert FreeBlock([]) == {} && WritesBlock([]) == {};
    assert FreeStmt(guard) == {"x"} && StmtNames(guard) == {"x"} && WritesStmt(guard) == {} && LocalsStmt(guard) == {};
  }

  lemma {:induction false} JumpShape()
    ensures var jump := [Jump(Return)];
      && Declared(jump) == [] && FreeBlock(jump) == {} && WritesBlock(jump) == {} && StmtsNames(jump) == {}
      && LocalsStmts(jump) == {} && CallsNone(jump, "h")
  {
    assert [Jump(Return)][1..] == [];
  }

  lemma {:induction false} BoundAnalyzed(cmp: Comparator, bound: Value, v: Value)
    ensures Analyze(BoundModule(cmp, bound, v), BoundHelper(cmp, bound), 3) == Some(Bounded(cmp, bound))
  {
    UseShape();
    BoundShape(cmp, bound);
    assert Elements(["x"]) == {"x"};
    assert WritesBlock(BoundHelper(cmp, bound).body) == {} && FreeNames(BoundHelper(cmp, bound)) == {};
    CallAnalyzed([], Bounded(cmp, bound), [], Some(v));
  }

  lemma {:induction false} BoundPlain(cmp: Comparator, bound: Value)
    ensures PlainHelper(Bounded(cmp, bound))
  {
    UseShape();
    BoundShape(cmp, bound);
    assert Elements(["x"]) == {"x"} && Outside(BoundHelper(cmp, bound)) == {};
  }

  lemma {:induction false} BoundWellFormed(cmp: Comparator, bound: Value, v: Value)
    ensures WellFormed(BoundModule(cmp, bound, v))
  {
    UseShape();
    BoundShape(cmp, bound);
    var h, jump := BoundHelper(cmp, bound), [Jump(Return)];
    var scope := Elements(["x"]);
    assert scope == {"x"} && scope + {} == scope;
    assert jump[1..] == [] && Declared(jump) == [] && WellFormedStmts([], scope) && WellFormedStmts(jump, scope);
    assert WellFormedBlock(jump, scope) && WellFormedBlock([], scope);
    assert USE_TAIL[1..] == [] && WellFormedStmts(USE_TAIL, scope);
    GuardShape(cmp, "x", bound);
    assert WellFormedStmt(h.body[0], scope) && h.body[1..] == USE_TAIL;
    assert WellFormedStmts(h.body, scope);
    assert WellFormedFun(h);
    CallWellFormed([], h, [], Some(v));
  }

  lemma {:induction false} BoundGood(cmp: Comparator, bound: Value, v: Value, w: World)
    ensures Good(Job(BoundModule(cmp, bound, v), w, Bounded(cmp, bound)))
  {
    hide Analyze, WellFormed, Hygienic, PlainHelper;
    var p := BoundModule(cmp, bound, v);
    BoundAnalyzed(cmp, bound, v);
    BoundPlain(cmp, bound);
    PlainIsHygienic(p, Bounded(cmp, bound), 3);
    BoundWellFormed(cmp, bound, v);
    assert p.funs[0] == BoundHelper(cmp, bound);
  }

  // ----- an ordered pair -----

  lemma {:induction false} QuietOrdered(m: Machine, c: Candidate, s: Stmt, env: Env, st: State, fuel: nat)
    requires !s.If? && !s.While? && !s.Call?
    ensures BlockOrdered(m, c, [s], env, st, fuel) && BlockOrdered(m, c, [], env, st, fuel)
    ensures StmtsOrdered(m, c, [s], env, st, fuel)
  {
    var ds := Declared([s]);
    assert [s][1..] == [];
    OneQuiet(m, c, s, Bind(ds, |st.heap|, env), st.(heap := st.heap + EmptyCells(|ds|)), fuel);
    OneQuiet(m, c, s, env, st, fuel);
  }

  lemma {:induction false} OneQuiet(m: Machine, c: Candidate, s: Stmt, env: Env, st: State, fuel: nat)
    requires !s.If? && !s.While? && !s.Call?
    ensures StmtsOrdered(m, c, [s], env, st, fuel)
  {
    hide ExecStmt;
    HeadOrdered(m, c, [s], env, st, fuel);
    assert [s][1..] == [];
  }

  /** The helper's body calls nothing, so only its guard matters. */
  lemma {:induction false} BoundCallOrdered(m: Machine, cmp: Comparator, bound: Value, v: Value, st: State, fuel: nat)
    requires OrderedPair(m.w, cmp, v, bound)
    ensures InvokeOrdered(m, Bounded(cmp, bound), BoundHelper(cmp, bound), [v], st, fuel)
  {
    hide StmtsOrdered, BlockOrdered, ExecStmt, GuardsOrdered, OrderedPair, Bind;
    var c, h := Bounded(cmp, bound), BoundHelper(cmp, bound);
    BoundShape(cmp, bound);
    var env, st1 := Bind(["x"], |st.heap|, GlobalEnv(m.p)), st.(heap := st.heap + ParamCells(1, [v]));
    BindOne("x", |st.heap|, GlobalEnv(m.p));
    BindNothing(|st1.heap|, env);
    assert st1.heap + EmptyCells(0) == st1.heap;
    assert Read("x", env, st1) == Norm(v);
    OneGuard(m.w, BoundGuard(cmp, bound), env, st1);
    assert Ordered(m.w, BoundGuard(cmp, bound), env, st1);
    BoundBodyOrdered(m, cmp, bound, env, st1, fuel);
  }

  lemma {:induction false} BoundBodyOrdered(m: Machine, cmp: Comparator, bound: Value, env: Env, st: State, fuel: nat)
    ensures BlockOrdered(m, Bounded(cmp, bound), BoundHelper(cmp, bound).body, env, st, fuel)
  {
    hide StmtsOrdered, ExecStmt, Bind, Eval;
    var c, body := Bounded(cmp, bound), BoundHelper(cmp, bound).body;
    BoundShape(cmp, bound);
    BindNothing(|st.heap|, env);
    assert st.heap + EmptyCells(0) == st.heap;
    HeadOrdered(m, c, body, env, st, fuel);
    var st1 := Eval(m.w, BoundGuard(cmp, bound), env, st).1;
    QuietOrdered(m, c, Jump(Return), env, st1, fuel);
    QuietOrdered(m, c, ExprS(USE), env, ExecStmt(m, body[0], env, st, fuel).1, fuel);
  }

  lemma {:induction false} BoundRunOrdered(cmp: Comparator, bound: Value, v: Value, w: World, vs: seq<Value>, st: State)
    requires OrderedPair(w, cmp, v, bound)
    ensures RunOrdered(BoundModule(cmp, bound, v), w, Bounded(cmp, bound), "main", vs, st)
  {
    hide InvokeOrdered, OrderedPair, FindFun;
    var p, c, main := BoundModule(cmp, bound, v), Bounded(cmp, bound), MainFun([], Some(v));
    FoundBoth(c.f, [], Some(v));
    forall fuel: nat ensures InvokeOrdered(Machine(p, w), c, main, vs, st, fuel) {
      MainOrdered(cmp, bound, v, w, vs, st, fuel);
    }
  }

  lemma {:induction false} MainOrdered(cmp: Comparator, bound: Value, v: Value, w: World, vs: seq<Value>, st: State,
    fuel: nat)
    requires OrderedPair(w, cmp, v, bound)
    ensures InvokeOrdered(Machine(BoundModule(cmp, bound, v), w), Bounded(cmp, bound), MainFun([], Some(v)), vs, st,
        fuel)
  {
    hide StmtsOrdered, ExecStmt, GuardsOrdered, OrderedPair, Bind, EvalArgs, FindFun;
    var p, c, main := BoundModule(cmp, bound, v), Bounded(cmp, bound), MainFun([], Some(v));
    var m, env, st1 := Machine(p, w), GlobalEnv(p), st.(heap := st.heap + ParamCells(0, vs));
    CallNames(Some(v));
    FoundBoth(c.f, [], Some(v));
    BindNothing(|st.heap|, env);
    BindNothing(|st1.heap|, env);
    assert st1.heap + EmptyCells(0) == st1.heap;
    HeadOrdered(m, c, main.body, env, st1, fuel);
    ArgsAre(w, Some(v), env, st1);
    if fuel > 0 { BoundCallOrdered(m, cmp, bound, v, st1, fuel - 1); }
    assert StmtOrdered(m, c, CallOf(Some(v)), env, st1, fuel);
    var after := ExecStmt(m, main.body[0], env, st1, fuel).1;
    assert StmtsOrdered(m, c, [], env, after, fuel) by { NothingOrdered(m, c, env, after, fuel); }
  }

  lemma {:induction false} NothingOrdered(m: Machine, c: Candidate, env: Env, st: State, fuel: nat)
    ensures StmtsOrdered(m, c, [], env, st, fuel)
  {
  }

  // ----- an unordered pair -----

  /** The guard does not fire, so `use` is called. */
  lemma {:induction false} BoundBefore(cmp: Comparator, bound: Value, v: Value, w: World)
    requires cmp.Ordering() && !OrderedPair(w, cmp, v, bound)
    ensures var r := AfterEval(w.op([], "use", v, v), State([Some(v)], [Event("use", v, v)]));
      Invoke(Machine(BoundModule(cmp, bound, v), w), BoundHelper(cmp, bound), [v], State([], []), 0) == r
  {
    hide ExecStmts, ExecBlock, Bind;
    var m, h, st := Machine(BoundModule(cmp, bound, v), w), BoundHelper(cmp, bound), State([Some(v)], []);
    BoundShape(cmp, bound);
    BindOne("x", 0, GlobalEnv(m.p));
    var env := GlobalEnv(m.p)["x" := 0];
    CallBlock(m, h, [v], State([], []), 0);
    assert [] + ParamCells(1, [v]) == st.heap;
    assert Invoke(m, h, [v], State([], []), 0) == ExecBlock(m, h.body, env, st, 0);
    NoDeclarations(m, h.body, env, st, 0);
    assert Read("x", env, st) == Norm(v);
    assert Eval(w, BoundGuard(cmp, bound), env, st) == (Norm(Bool(false)), st);
    GuardPasses(m, h.body[0], env, st, 0);
    HeadStep(m, h.body[0], USE_TAIL, env, st, 0);
    OneStep(m, ExprS(USE), env, st, 0);
    assert st.hist + [Event("use", v, v)] == [Event("use", v, v)];
    assert Eval(w, USE, env, st) == (w.op([], "use", v, v), State([Some(v)], [Event("use", v, v)]));
    assert [h.body[0]] + USE_TAIL == h.body;
    assert ExecStmts(m, h.body, env, st, 0) == ExecStmt(m, ExprS(USE), env, st, 0);
  }

  /** The inlined condition is false too, so nothing is called. */
  lemma {:induction false} BoundAfter(cmp: Comparator, bound: Value, v: Value, m: Machine, fuel: nat)
    requires cmp.Ordering() && !OrderedPair(m.w, cmp, v, bound) && m.p.globals == []
    ensures ExecBlock(m, SiteCode(Bounded(cmp, bound), CallOf(Some(v)), {"h"}), Bind([], 0, GlobalEnv(m.p)),
        State([], []), fuel)
      == (Normal, State([Some(v)], []))
  {
    hide ExecStmts, ExecBlock, Bind, SiteCode, RewriteBlock;
    var cond := Compare(Flip(cmp), Var(0, TEMP_X), Lit(1, bound));
    var code := RewriteBlock(None, USE_TAIL, map["x" := ToVar(TEMP_X)]);
    var none: Env := map[];
    BoundCode(cmp, bound, v);
    BindNothing(0, none);
    BindNothing(0, GlobalEnv(m.p));
    assert [If(cond, code, [])][1..] == [];
    TempFirst(m, v, [If(cond, code, [])], none, State([], []), fuel);
    var env, st := none[TEMP_X := 0], State([Some(v)], []);
    assert [] + [Some(v)] == st.heap && Read(TEMP_X, env, st) == Norm(v);
    assert Eval(m.w, cond, env, st) == (Norm(Bool(false)), st);
    IfStep(m, cond, code, env, st, fuel);
  }

  lemma {:induction false} BoundCode(cmp: Comparator, bound: Value, v: Value)
    ensures SiteCode(Bounded(cmp, bound), CallOf(Some(v)), {"h"})
      == [Decl(TEMP_X, Lit(9, v))]
         + [If(Compare(Flip(cmp), Var(0, TEMP_X), Lit(1, bound)),
               RewriteBlock(None, USE_TAIL, map["x" := ToVar(TEMP_X)]), [])]
  {
    hide PlanFrom, RewriteBlock, Condition, FreeBlock;
    BoundUses(cmp, bound);
    PlanOfOne(Bounded(cmp, bound), v);
    BoundCondition(cmp, bound);
  }

  lemma {:induction false} BoundUses(cmp: Comparator, bound: Value)
    ensures Bounded(cmp, bound).Used("x")
  {
    BoundShape(cmp, bound);
    UseShape();
  }

  lemma {:induction false} GuardSubstituted(cmp: Comparator, bound: Value, sub: Sub)
    requires sub == map["x" := ToVar(TEMP_X)]
    ensures SubArgs([BoundGuard(cmp, bound)], sub) == [Compare(cmp, Var(0, TEMP_X), Lit(1, bound))]
  {
    var guards, none: seq<Expr> := [BoundGuard(cmp, bound)], [];
    var l, r := Var(0, "x"), Lit(1, bound);
    assert SubE(l, sub) == Var(0, TEMP_X) && SubE(r, sub) == r;
    assert SubE(guards[0], sub) == Compare(cmp, SubE(l, sub), SubE(r, sub));
    assert guards[1..] == none && SubArgs(none, sub) == [];
    assert SubArgs(guards, sub) == [SubE(guards[0], sub)] + SubArgs(guards[1..], sub);
  }

  lemma {:induction false} BoundCondition(cmp: Comparator, bound: Value)
    ensures Condition([BoundGuard(cmp, bound)], map["x" := ToVar(TEMP_X)])
      == Compare(Flip(cmp), Var(0, TEMP_X), Lit(1, bound))
  {
    var sub: Sub := map["x" := ToVar(TEMP_X)];
    var g := Compare(cmp, Var(0, TEMP_X), Lit(1, bound));
    GuardSubstituted(cmp, bound, sub);
    hide ParseAt, CombineGuards, SubArgs;
    GuardShape(cmp, TEMP_X, bound);
    CombineGuardsReadsBack([g]);
  }

  lemma {:induction false} BoundChanges(cmp: Comparator, bound: Value, v: Value, w: World)
    requires cmp.Ordering() && !OrderedPair(w, cmp, v, bound)
    ensures var r := AfterEval(w.op([], "use", v, v), State([Some(v)], [Event("use", v, v)]));
      Changes([], Bounded(cmp, bound), [], Some(v), w, [], State([], []), Visible(r.0, [], [Event("use", v, v)]),
          Visible(Normal, [], []))
  {
    hide Analyze, Yields, Invoke, ExecBlock, SiteCode, InlineInto, Bind;
    var p, c, st := BoundModule(cmp, bound, v), Bounded(cmp, bound), State([], []);
    assert st.heap + ParamCells(0, []) == st.heap;
    BoundAnalyzed(cmp, bound, v);
    BoundBefore(cmp, bound, v, w);
    var r := AfterEval(w.op([], "use", v, v), State([Some(v)], [Event("use", v, v)]));
    CallRuns([], c.f, [], Some(v), w, [], st, r);
    var q := InlineInto(p, c);
    CallInlined([], c, [], Some(v));
    var r' := (Normal, State([Some(v)], []));
    forall fuel: nat
      ensures ExecBlock(Machine(q, w), SiteCode(c, CallOf(Some(v)), {"h"}), Bind([], 0, GlobalEnv(q)), st, fuel) == r'
    {
      BoundAfter(cmp, bound, v, Machine(q, w), fuel);
    }
    InlinedRuns([], c, [], Some(v), w, [], st, r');
    assert r.1.heap[..0] == [] && r'.1.heap[..0] == [];
  }

  /** Whatever is compared with whatever bound, by any of the four ordering
      comparisons: inlining keeps the meaning exactly when the pair is ordered. */
  lemma {:induction false} BoundExact(cmp: Comparator, bound: Value, v: Value, w: World)
    requires cmp.Ordering()
    ensures var p, c := BoundModule(cmp, bound, v), Bounded(cmp, bound);
      && Analyze(p, c.f, 3) == Some(c)
      && ((forall vs, st, u :: Yields(p, w, "main", vs, st, u) <==> Yields(InlineInto(p, c), w, "main", vs, st, u))
          <==> OrderedPair(w, cmp, v, bound))
  {
    hide Analyze, Yields, InlineInto, Good, OrderedPair, RunOrdered;
    var p, c := BoundModule(cmp, bound, v), Bounded(cmp, bound);
    BoundAnalyzed(cmp, bound, v);
    if OrderedPair(w, cmp, v, bound) {
      BoundGood(cmp, bound, v, w);
      FoundBoth(c.f, [], Some(v));
      forall vs, st, u ensures Yields(p, w, "main", vs, st, u) <==> Yields(InlineInto(p, c), w, "main", vs, st, u) {
        BoundRunOrdered(cmp, bound, v, w, vs, st);
        InliningPreservesMeaning(Job(p, w, c), "main", vs, st, u);
      }
    } else {
      BoundChanges(cmp, bound, v, w);
    }
  }
}
