/**
 Modules that the inliner accepts and changes: one for each condition that makes
 a round clean, and one whose second round is not clean.
 */
module InlinerCaptures {
  import opened Basics
  import opened Expressions
  import opened GuardText
  import opened GuardInversion
  import opened Programs
  import opened Inliner
  import opened InlinerMemory
  import opened InlinerNames
  import opened InlinerOrder
  import opened InlinerSim
  import opened InlinerSite
  import opened InlinerTheorems
  import opened InlinerRounds
  import opened InlinerHygiene

  // ----- a helper and one call of it -----

  function Args(arg: Option<Value>): seq<Expr> { if arg.None? then [] else [Lit(9, arg.value)] }

  function Values(arg: Option<Value>): seq<Value> { if arg.None? then [] else [arg.value] }

  function CallOf(arg: Option<Value>): Stmt { Call("h", Args(arg)) }

  function MainFun(params: seq<string>, arg: Option<Value>): Fun { Fun("main", params, [CallOf(arg)], true) }

  /** A module of globals, one helper, and a function that does nothing but call it. */
  function CallingModule(globals: seq<string>, h: Fun, params: seq<string>, arg: Option<Value>): Program {
    Program(globals, [h, MainFun(params, arg)])
  }

  lemma {:induction false} CallNames(arg: Option<Value>)
    ensures StmtsNames([CallOf(arg)]) == {"h"} && Declared([CallOf(arg)]) == [] && [CallOf(arg)][1..] == []
    ensures Elements<string>([]) == {}
  {
    assert [CallOf(arg)][1..] == [];
    assert Args(arg) != [] ==> Args(arg)[1..] == [];
    assert ArgNames(Args(arg)) == {};
    assert StmtNames(CallOf(arg)) == {"h"};
  }

  /** What is left once the helper is inlined. */
  lemma {:induction false} CallInlined(globals: seq<string>, c: Candidate, params: seq<string>, arg: Option<Value>)
    requires c.f.name == "h"
    ensures InlineInto(CallingModule(globals, c.f, params, arg), c)
      == Program(globals, [Fun("main", params, SiteCode(c, CallOf(arg), {"h"}), true)])
  {
    hide SiteCode, SiteNames, StmtsNames;
    CallNames(arg);
    var none: Sub := map[];
    var funs := [c.f, MainFun(params, arg)];
    var names := SiteNames(c, Args(arg), {"h"});
    assert none - {} == none;
    assert RewriteStmts(Some(c), [], none, {"h"} + Elements(names)) == [];
    assert RewriteStmts(Some(c), [CallOf(arg)], none, {"h"}) == SiteCode(c, CallOf(arg), {"h"}) + [];
    assert RewriteBlock(Some(c), [CallOf(arg)], none) == SiteCode(c, CallOf(arg), {"h"});
    var main := MainFun(params, arg);
    assert funs[1..] == [main] && [main][1..] == [];
    assert RewriteFuns(c, []) == [];
    assert RewriteFuns(c, [main]) == [main.(body := SiteCode(c, CallOf(arg), {"h"}))] + [];
    assert RewriteFuns(c, funs) == RewriteFuns(c, [main]);
  }

  lemma {:induction false} CallAnalyzed(globals: seq<string>, c: Candidate, params: seq<string>, arg: Option<Value>)
    requires c.f.name == "h" && !c.f.exported && CallsNone(c.f.body, "h")
    requires Elements(c.f.params) * WritesBlock(c.f.body) == {}
    requires c.guards == LeadingGuards(c.f.body) && c.tail == c.f.body[|c.guards|..]
    requires 1 <= |c.tail| <= 3 && NoEscape(c.tail, false)
    requires |Args(arg)| <= |c.f.params| && FreeNames(c.f) !! Elements(params)
    ensures Analyze(CallingModule(globals, c.f, params, arg), c.f, 3) == Some(c)
  {
    hide CallsNone, WritesBlock, LeadingGuards, NoEscape, FreeNames;
    var p, m := CallingModule(globals, c.f, params, arg), MainFun(params, arg);
    CallNames(arg);
    assert Elements(params) + {} == Elements(params);
    assert SitesOk(c, [CallOf(arg)][1..], Elements(params));
    assert m.body == [CallOf(arg)] && SitesOkStmt(c, CallOf(arg), Elements(params));
    assert SitesOk(c, [CallOf(arg)], Elements(params));
    assert SitesOkBlock(c, m.body, Elements(params));
    NoCallsSitesOk(c, c.f.body, Elements(c.f.params));
    forall g | g in p.funs ensures SitesOkBlock(c, g.body, Elements(g.params)) {
      assert g == c.f || g == m;
    }
    assert !CallsNone(m.body, "h") by { CallSeen(arg); }
    assert p.funs[1] == m && m in p.funs;
  }

  lemma {:induction false} CallSeen(arg: Option<Value>)
    ensures !CallsNone([CallOf(arg)], "h")
  {
    assert !CallsNoneStmt(CallOf(arg), "h");
  }

  lemma {:induction false} NoCallsSitesOk(c: Candidate, ss: seq<Stmt>, scope: set<string>)
    requires CallsNone(ss, c.f.name)
    ensures SitesOkBlock(c, ss, scope)
    decreases ss, 2
  {
    NoCallsSites(c, ss, scope + Elements(Declared(ss)));
  }

  lemma {:induction false} NoCallsSites(c: Candidate, ss: seq<Stmt>, scope: set<string>)
    requires CallsNone(ss, c.f.name)
    ensures SitesOk(c, ss, scope)
    decreases ss, 1
  {
    if ss != [] {
      match ss[0] {
        case If(_, a, b) =>
          NoCallsSitesOk(c, a, scope);
          NoCallsSitesOk(c, b, scope);
        case While(_, b) => NoCallsSitesOk(c, b, scope);
        case _ =>
      }
      NoCallsSites(c, ss[1..], scope);
    }
  }

  /** Running the caller is running the helper. */
  lemma {:induction false} CallRuns(globals: seq<string>, h: Fun, params: seq<string>, arg: Option<Value>, w: World,
    vs: seq<Value>, st: State, r: Result)
    requires h.name == "h" && "h" !in globals && "h" !in params && NoDup(globals) && NoDup(params)
    requires |st.heap| == |globals|
    requires var m := Machine(CallingModule(globals, h, params, arg), w);
      r == AfterCall(Invoke(m, h, Values(arg), st.(heap := st.heap + ParamCells(|params|, vs)), 0))
    requires !r.0.Jumped? && r.0 != Timeout && |r.1.heap| >= |globals|
    ensures Yields(CallingModule(globals, h, params, arg), w, "main", vs, st,
        Visible(r.0, r.1.heap[..|globals|], r.1.hist))
  {
    hide Invoke, ExecBlock, ExecStmts;
    var p := CallingModule(globals, h, params, arg);
    var m, main, st1 := Machine(p, w), MainFun(params, arg), st.(heap := st.heap + ParamCells(|params|, vs));
    var env := Bind(params, |st.heap|, GlobalEnv(p));
    BindAt(globals, 0, map[]);
    BindAt(params, |st.heap|, GlobalEnv(p));
    CallStep(m, globals, h, params, arg, env, st1);
    OneStep(m, CallOf(arg), env, st1, 1);
    NoDeclarations(m, [CallOf(arg)], env, st1, 1) by { CallNames(arg); }
    CallBlock(m, main, vs, st, 1);
    FoundBoth(h, params, arg);
    assert YieldsWithin(p, w, "main", vs, st, Visible(r.0, r.1.heap[..|globals|], r.1.hist), 1);
  }

  lemma {:induction false} FoundBoth(h: Fun, params: seq<string>, arg: Option<Value>)
    requires h.name == "h"
    ensures var main := MainFun(params, arg);
      FindFun([h, main], "h") == Some(h) && FindFun([h, main], "main") == Some(main)
  {
    assert [h, MainFun(params, arg)][1..] == [MainFun(params, arg)];
  }

  lemma {:induction false} NoDeclarations(m: Machine, ss: seq<Stmt>, env: Env, st: State, fuel: nat)
    requires Declared(ss) == []
    ensures ExecBlock(m, ss, env, st, fuel) == ExecStmts(m, ss, env, st, fuel)
  {
    hide ExecStmts;
    assert st.heap + EmptyCells(0) == st.heap;
  }

  lemma {:induction false} CallStep(m: Machine, globals: seq<string>, h: Fun, params: seq<string>, arg: Option<Value>,
    env: Env, st: State)
    requires h.name == "h" && m.p == CallingModule(globals, h, params, arg) && "h" !in env
    ensures ExecStmt(m, CallOf(arg), env, st, 1) == AfterCall(Invoke(m, h, Values(arg), st, 0))
  {
    hide Invoke, EvalArgs;
    FoundBoth(h, params, arg);
    ArgsAre(m.w, arg, env, st);
  }

  lemma {:induction false} ArgsAre(w: World, arg: Option<Value>, env: Env, st: State)
    ensures EvalArgs(w, Args(arg), env, st) == (ArgValues(Values(arg)), st)
  {
    if arg.Some? {
      assert Args(arg)[1..] == [] && Values(arg) == [arg.value] + [];
    }
  }

  lemma {:induction false} OneStep(m: Machine, s: Stmt, env: Env, st: State, fuel: nat)
    ensures ExecStmts(m, [s], env, st, fuel) == ExecStmt(m, s, env, st, fuel)
  {
    assert [s][1..] == [];
  }

  lemma {:induction false} CallBlock(m: Machine, f: Fun, vs: seq<Value>, st: State, fuel: nat)
    ensures Invoke(m, f, vs, st, fuel)
      == ExecBlock(m, f.body, Bind(f.params, |st.heap|, GlobalEnv(m.p)),
          st.(heap := st.heap + ParamCells(|f.params|, vs)), fuel)
  {
  }

  /** Running the caller once the helper is inlined: no call is left, so the step budget does not matter. */
  lemma {:induction false} InlinedRuns(globals: seq<string>, c: Candidate, params: seq<string>, arg: Option<Value>,
    w: World, vs: seq<Value>, st: State, r: Result)
    requires c.f.name == "h" && |st.heap| == |globals|
    requires var q := InlineInto(CallingModule(globals, c.f, params, arg), c);
      forall fuel: nat :: r == ExecBlock(Machine(q, w), SiteCode(c, CallOf(arg), {"h"}),
                                         Bind(params, |st.heap|, GlobalEnv(q)),
                                         st.(heap := st.heap + ParamCells(|params|, vs)), fuel)
    requires !r.0.Jumped? && r.0 != Timeout && |r.1.heap| >= |globals|
    ensures forall v :: Yields(InlineInto(CallingModule(globals, c.f, params, arg), c), w, "main", vs, st, v)
                   <==> v == Visible(r.0, r.1.heap[..|globals|], r.1.hist)
  {
    hide ExecBlock, SiteCode;
    var q := InlineInto(CallingModule(globals, c.f, params, arg), c);
    CallInlined(globals, c, params, arg);
    var main, seen := q.funs[0], Visible(r.0, r.1.heap[..|globals|], r.1.hist);
    assert FindFun(q.funs, "main") == Some(main);
    forall v, fuel: nat ensures YieldsWithin(q, w, "main", vs, st, v, fuel) <==> v == seen {
      CallBlock(Machine(q, w), main, vs, st, fuel);
    }
    assert YieldsWithin(q, w, "main", vs, st, seen, 0);
  }

  /** The module means something else once the helper is inlined. */
  ghost predicate Changes(globals: seq<string>, c: Candidate, params: seq<string>, arg: Option<Value>, w: World,
    vs: seq<Value>, st: State, before: Visible, after: Visible)
  {
    var p := CallingModule(globals, c.f, params, arg);
    && Analyze(p, c.f, 3) == Some(c) && before != after && Yields(p, w, "main", vs, st, before)
    && forall v :: Yields(InlineInto(p, c), w, "main", vs, st, v) <==> v == after
  }

  // ----- short bodies -----

  lemma {:induction false} OneExpr(e: Expr)
    ensures var body := [ExprS(e)];
      && Declared(body) == [] && LeadingGuards(body) == [] && FreeStmts(body) == Names(e)
      && WritesStmts(body) == Writes(e)
      && StmtsNames(body) == Names(e) && LocalsStmts(body) == {} && InnerLocals(body) == {} && NoEscape(body, false)
      && (forall g :: CallsNone(body, g)) && (forall s :: NoCapture(s, body))
  {
    var body := [ExprS(e)];
    assert body[1..] == [];
    assert FreeStmts(body) == FreeStmt(body[0]) + FreeStmts([]);
    assert WritesStmts(body) == WritesStmt(body[0]) + WritesStmts([]);
    assert StmtsNames(body) == StmtNames(body[0]) + StmtsNames([]);
    assert LocalsStmts(body) == LocalsStmt(body[0]) + LocalsStmts([]);
    assert InnerLocals(body) == InnerLocalsOf(body[0]) + InnerLocals([]);
    assert NoEscape([], false);
    forall g ensures CallsNone(body, g) { assert CallsNone([], g); }
    forall s ensures NoCapture(s, body) { assert NoCapture(s, []); }
  }

  lemma {:induction false} DeclThenExpr(x: string, i: Expr, e: Expr)
    ensures var body := [Decl(x, i), ExprS(e)];
      && Declared(body) == [x] && LeadingGuards(body) == [] && FreeStmts(body) == {x} + Names(i) + Names(e)
      && WritesStmts(body) == Writes(i) + Writes(e) && StmtsNames(body) == {x} + Names(i) + Names(e)
      && LocalsStmts(body) == {x} && InnerLocals(body) == {} && NoEscape(body, false)
      && (forall g :: CallsNone(body, g))
  {
    var body, back := [Decl(x, i), ExprS(e)], [ExprS(e)];
    OneExpr(e);
    assert body[1..] == back;
    assert Declared(body) == [x] + Declared(back);
    assert FreeStmts(body) == FreeStmt(body[0]) + FreeStmts(back);
    assert WritesStmts(body) == WritesStmt(body[0]) + WritesStmts(back);
    assert StmtsNames(body) == StmtNames(body[0]) + StmtsNames(back);
    assert LocalsStmts(body) == LocalsStmt(body[0]) + LocalsStmts(back);
    assert InnerLocals(body) == InnerLocalsOf(body[0]) + InnerLocals(back);
    forall g ensures CallsNone(body, g) { assert CallsNone(back, g); }
  }

  lemma {:induction false} TwoReads(x: string, y: string)
    ensures var e := Op(1, "use", Var(2, x), Var(3, y)); Names(e) == {x, y} && Writes(e) == {}
  {
    assert Writes(Var(2, x)) == {} && Writes(Var(3, y)) == {};
  }

  // ----- a guard that reads a local of the tail -----

  const EARLY_GUARD := Fun("h", [], [If(Var(0, "y"), [Jump(Return)], []), Decl("y", Lit(1, Num(1)))], false)

  const EARLY := Candidate(EARLY_GUARD, [Var(0, "y")], [Decl("y", Lit(1, Num(1)))])

  /** `h() { if (y) return; const y = 1; }` reads its own `y` too early and throws.
      Inlined, the guard reads the global of that name. */
  lemma {:induction false} EarlyGuardChanges(w: World)
    ensures var st := State([Some(Num(7))], []);
      Changes(["y"], EARLY, [], None, w, [], st, Visible(Throws(REFERENCE_ERROR), st.heap, []),
          Visible(Normal, st.heap, []))
  {
    hide Analyze, Yields, Invoke, ExecBlock, SiteCode, InlineInto;
    var p, st := CallingModule(["y"], EARLY_GUARD, [], None), State([Some(Num(7))], []);
    EarlyAnalyzed();
    EarlyThrows(Machine(p, w));
    assert st.heap + ParamCells(0, []) == st.heap;
    CallRuns(["y"], EARLY_GUARD, [], None, w, [], st, (Throws(REFERENCE_ERROR), State([Some(Num(7)), None], [])));
    var q := InlineInto(p, EARLY);
    CallInlined(["y"], EARLY, [], None);
    forall fuel: nat
      ensures ExecBlock(Machine(q, w), SiteCode(EARLY, CallOf(None), {"h"}), Bind([], 1, GlobalEnv(q)), st, fuel)
        == (Normal, st)
    {
      EarlyPasses(Machine(q, w), fuel);
    }
    InlinedRuns(["y"], EARLY, [], None, w, [], st, (Normal, st));
    assert st.heap[..1] == st.heap && [Some(Num(7)), None][..1] == st.heap;
  }

  lemma {:induction false} EarlyAnalyzed()
    ensures Analyze(CallingModule(["y"], EARLY_GUARD, [], None), EARLY_GUARD, 3) == Some(EARLY)
  {
    var body := EARLY_GUARD.body;
    var tail, back := body[1..], [Jump(Return)][1..];
    assert tail == EARLY.tail && tail[1..] == [] && back == [];
    assert LeadingGuards(tail) == [] && LeadingGuards(body) == [Var(0, "y")] + [];
    assert Elements<string>([]) == {};
    CallAnalyzed(["y"], EARLY, [], None);
  }

  lemma {:induction false} EarlyThrows(m: Machine)
    requires m.p == CallingModule(["y"], EARLY_GUARD, [], None)
    ensures Invoke(m, EARLY_GUARD, [], State([Some(Num(7))], []), 0)
      == (Throws(REFERENCE_ERROR), State([Some(Num(7)), None], []))
  {
    var st, body := State([Some(Num(7))], []), EARLY_GUARD.body;
    assert Declared(body[1..][1..]) == [] && Declared(body[1..]) == ["y"] + [];
    assert Declared(body) == ["y"];
    var env := Bind(["y"], 1, GlobalEnv(m.p));
    assert ["y"][1..] == [] && env == GlobalEnv(m.p)["y" := 1];
    assert st.heap + ParamCells(0, []) == st.heap && st.heap + EmptyCells(1) == [Some(Num(7)), None];
    assert Read("y", env, State([Some(Num(7)), None], [])) == Thrown(REFERENCE_ERROR);
  }

  lemma {:induction false} EarlyPasses(m: Machine, fuel: nat)
    requires m.p.globals == ["y"]
    ensures ExecBlock(m, SiteCode(EARLY, CallOf(None), {"h"}), Bind([], 1, GlobalEnv(m.p)), State([Some(Num(7))], []),
        fuel)
      == (Normal, State([Some(Num(7))], []))
  {
    hide ExecBlock, ExecStmts, SiteCode, Bind;
    var st, cond := State([Some(Num(7))], []), Not(Paren(Var(0, "y")));
    var tail := RewriteBlock(None, EARLY.tail, map[]);
    EarlyCode();
    OneGlobal(m.p, "y");
    BindNothing(1, GlobalEnv(m.p));
    assert Eval(m.w, cond.e, GlobalEnv(m.p), st) == (Norm(Num(7)), st);
    assert Eval(m.w, cond, GlobalEnv(m.p), st) == (Norm(Bool(false)), st);
    IfStep(m, cond, tail, GlobalEnv(m.p), st, fuel);
    NoDeclarations(m, [If(cond, tail, [])], GlobalEnv(m.p), st, fuel) by {
      assert [If(cond, tail, [])][1..] == [];
    }
  }

  lemma {:induction false} OneGlobal(p: Program, y: string)
    requires p.globals == [y]
    ensures GlobalEnv(p) == map[y := 0]
  {
    var none: Env := map[];
    BindOne(y, 0, none);
    assert none[y := 0] == map[y := 0];
  }

  lemma {:induction false} BindOne(y: string, base: nat, env: Env)
    ensures Bind([y], base, env) == env[y := base]
  {
    assert [y][1..] == [];
    BindNothing(base + 1, env[y := base]);
  }

  lemma {:induction false} BindNothing(base: nat, env: Env)
    ensures Bind([], base, env) == env
  {
  }

  lemma {:induction false} EarlyCode()
    ensures SiteCode(EARLY, CallOf(None), {"h"})
      == [If(Not(Paren(Var(0, "y"))), RewriteBlock(None, EARLY.tail, map[]), [])]
  {
    hide RewriteBlock;
    var none: Sub := map[];
    var guards := [Var(0, "y")];
    assert guards[1..] == [] && SubArgs(guards, none) == guards;
    CombineGuardsReadsBack(guards);
  }

  // ----- a name that is both taken from outside and declared in a block -----

  const SHADOWED_HELPER := Fun("h", [],
    [ExprS(Assign("r", Var(0, "g"))), If(Lit(1, Bool(false)), [Decl("g", Lit(2, Num(0)))], [])], false)

  const SHADOWED := Candidate(SHADOWED_HELPER, [], SHADOWED_HELPER.body)

  /** `h() { r = g; if (false) { const g = 0; } }` is called where a parameter is
      called `g`.  The search for outside names passes over `g`, because a block declares
      it, so the call is replaced, and then reads the parameter. */
  lemma {:induction false} ShadowedNameChanges(w: World)
    ensures var st := State([Some(Num(7)), Some(Num(0))], []);
      Changes(["g", "r"], SHADOWED, ["g"], None, w, [Num(5)], st,
              Visible(Normal, [Some(Num(7)), Some(Num(7))], []), Visible(Normal, [Some(Num(7)), Some(Num(5))], []))
  {
    hide Analyze, Yields, Invoke, ExecBlock, SiteCode, InlineInto, Bind;
    var p, st := CallingModule(["g", "r"], SHADOWED_HELPER, ["g"], None), State([Some(Num(7)), Some(Num(0))], []);
    var st1 := State([Some(Num(7)), Some(Num(0)), Some(Num(5))], []);
    assert st.heap + ParamCells(1, [Num(5)]) == st1.heap;
    ShadowedAnalyzed();
    ShadowedBefore(Machine(p, w), st1);
    CallRuns(["g", "r"], SHADOWED_HELPER, ["g"], None, w, [Num(5)], st,
      (Normal, State([Some(Num(7)), Some(Num(7)), Some(Num(5))], [])));
    var q := InlineInto(p, SHADOWED);
    CallInlined(["g", "r"], SHADOWED, ["g"], None);
    var r' := (Normal, State([Some(Num(7)), Some(Num(5)), Some(Num(5))], []));
    forall fuel: nat
      ensures ExecBlock(Machine(q, w), SiteCode(SHADOWED, CallOf(None), {"h"}), Bind(["g"], 2, GlobalEnv(q)), st1, fuel)
        == r'
    {
      ShadowedAfter(Machine(q, w), fuel);
    }
    InlinedRuns(["g", "r"], SHADOWED, ["g"], None, w, [Num(5)], st, r');
    assert [Some(Num(7)), Some(Num(7)), Some(Num(5))][..2] == [Some(Num(7)), Some(Num(7))];
    assert r'.1.heap[..2] == [Some(Num(7)), Some(Num(5))];
  }

  lemma {:induction false} ShadowedShape()
    ensures var body := SHADOWED_HELPER.body;
      && body == [body[0]] + [body[1]] && Declared(body) == [] && LeadingGuards(body) == []
      && FreeStmts(body) == {"g", "r"} && WritesStmts(body) == {"r"} && StmtsNames(body) == {"g", "r"}
      && LocalsStmts(body) == {"g"}
      && CallsNone(body, "h") && NoEscape(body, false)
  {
    var body := SHADOWED_HELPER.body;
    var back, inner := body[1..], body[1].thn;
    assert back[1..] == [] && inner[1..] == [] && body == [body[0]] + [body[1]];
    assert Elements<string>([]) == {};
    assert Declared(inner) == ["g"] + [] && Declared(back) == [];
    assert FreeStmts(inner) == {"g"} && FreeBlock(inner) == {} by { assert Elements(["g"]) == {"g"}; }
    assert StmtsNames(inner) == {"g"} && LocalsStmts(inner) == {"g"} && WritesStmts(inner) == {};
    assert WritesBlock(inner) == {};
    assert StmtNames(body[1]) == {"g"};
    assert StmtsNames(back) == StmtNames(back[0]) + StmtsNames([]);
    assert FreeStmt(body[1]) == {} && FreeStmts(back) == {} && WritesStmts(back) == {} && StmtsNames(back) == {"g"};
    assert CallsNone(inner, "h") && NoEscape(inner, false);
    assert CallsNone(back, "h") && NoEscape(back, false);
    assert LocalsStmts(back) == {"g"};
  }

  lemma {:induction false} ShadowedAnalyzed()
    ensures Analyze(CallingModule(["g", "r"], SHADOWED_HELPER, ["g"], None), SHADOWED_HELPER, 3) == Some(SHADOWED)
  {
    ShadowedShape();
    assert SHADOWED_HELPER.body[0..] == SHADOWED_HELPER.body;
    assert Elements<string>([]) == {} && Elements(["g"]) == {"g"};
    assert FreeNames(SHADOWED_HELPER) == {"r"};
    CallAnalyzed(["g", "r"], SHADOWED, ["g"], None);
  }

  /** The helper's two statements, where `g` has the given cell. */
  lemma {:induction false} ShadowedRuns(m: Machine, env: Env, st: State, v: Value, fuel: nat)
    requires "g" in env && "r" in env && env["g"] < |st.heap| && env["r"] < |st.heap|
    requires st.heap[env["g"]] == Some(v) && st.heap[env["r"]].Some?
    ensures ExecStmts(m, SHADOWED_HELPER.body, env, st, fuel) == (Normal, st.(heap := st.heap[env["r"] := Some(v)]))
  {
    hide ExecStmts;
    var body := SHADOWED_HELPER.body;
    ShadowedShape();
    assert Eval(m.w, Var(0, "g"), env, st) == (Norm(v), st);
    var st1 := st.(heap := st.heap[env["r"] := Some(v)]);
    assert ExecStmt(m, body[0], env, st, fuel) == (Normal, st1);
    HeadStep(m, body[0], [body[1]], env, st, fuel);
    OneStep(m, body[1], env, st1, fuel);
    NoDeclarations(m, [], env, st1, fuel);
    NothingRuns(m, env, st1, fuel);
  }

  lemma {:induction false} NothingRuns(m: Machine, env: Env, st: State, fuel: nat)
    ensures ExecStmts(m, [], env, st, fuel) == (Normal, st)
  {
  }

  lemma {:induction false} TwoGlobals(p: Program, x: string, y: string)
    requires p.globals == [x, y] && x != y
    ensures GlobalEnv(p) == map[x := 0, y := 1]
  {
    var none: Env := map[];
    assert [x, y][1..] == [y];
    BindOne(y, 1, none[x := 0]);
    assert none[x := 0][y := 1] == map[x := 0, y := 1];
  }

  lemma {:induction false} ShadowedBefore(m: Machine, st: State)
    requires m.p.globals == ["g", "r"] && st == State([Some(Num(7)), Some(Num(0)), Some(Num(5))], [])
    ensures Invoke(m, SHADOWED_HELPER, [], st, 0) == (Normal, State([Some(Num(7)), Some(Num(7)), Some(Num(5))], []))
  {
    hide ExecStmts, ExecBlock;
    ShadowedShape();
    TwoGlobals(m.p, "g", "r");
    BindNothing(3, GlobalEnv(m.p));
    CallBlock(m, SHADOWED_HELPER, [], st, 0);
    assert st.heap + ParamCells(0, []) == st.heap;
    NoDeclarations(m, SHADOWED_HELPER.body, GlobalEnv(m.p), st, 0);
    ShadowedRuns(m, GlobalEnv(m.p), st, Num(7), 0);
    assert st.heap[1 := Some(Num(7))] == [Some(Num(7)), Some(Num(7)), Some(Num(5))];
  }

  lemma {:induction false} ShadowedAfter(m: Machine, fuel: nat)
    requires m.p.globals == ["g", "r"]
    ensures ExecBlock(m, SiteCode(SHADOWED, CallOf(None), {"h"}), Bind(["g"], 2, GlobalEnv(m.p)),
                      State([Some(Num(7)), Some(Num(0)), Some(Num(5))], []), fuel)
      == (Normal, State([Some(Num(7)), Some(Num(5)), Some(Num(5))], []))
  {
    hide ExecStmts, ExecBlock, SiteCode, Declared;
    var st := State([Some(Num(7)), Some(Num(0)), Some(Num(5))], []);
    ShadowedShape();
    ShadowedCode();
    TwoGlobals(m.p, "g", "r");
    BindOne("g", 2, GlobalEnv(m.p));
    var env := GlobalEnv(m.p)["g" := 2];
    NoDeclarations(m, SHADOWED_HELPER.body, env, st, fuel);
    ShadowedRuns(m, env, st, Num(5), fuel);
    assert st.heap[1 := Some(Num(5))] == [Some(Num(7)), Some(Num(5)), Some(Num(5))];
  }

  lemma {:induction false} ShadowedInner()
    ensures var inner: seq<Stmt> := [Decl("g", Lit(2, Num(0)))];
      RewriteBlock(None, inner, map[]) == inner && RewriteBlock(None, [], map[]) == []
  {
    var inner: seq<Stmt> := [Decl("g", Lit(2, Num(0)))];
    var nothing: Sub := map[];
    assert inner[1..] == [] && StmtsNames(inner) == {"g"};
    assert nothing - Elements(Declared(inner)) == nothing && nothing - Elements<string>([]) == nothing;
    assert RewriteStmts(None, [], nothing, {"g"}) == [] && RewriteStmts(None, [], nothing, {}) == [];
    assert RewriteStmts(None, inner, nothing, {"g"}) == [inner[0]] + [];
  }

  lemma {:induction false} ShadowedCode()
    ensures SiteCode(SHADOWED, CallOf(None), {"h"}) == SHADOWED_HELPER.body
  {
    hide RewriteBlock;
    ShadowedShape();
    ShadowedInner();
    var body := SHADOWED_HELPER.body;
    var back := body[1..];
    var nothing: Sub := map[];
    assert back == [body[1]] && back[1..] == [];
    assert RewriteStmts(None, [], nothing, {}) == [];
    assert RewriteStmt(None, body[1], nothing) == body[1] && RewriteStmt(None, body[0], nothing) == body[0];
    assert RewriteStmts(None, back, nothing, {}) == [body[1]] + [];
    assert RewriteStmts(None, body, nothing, {}) == [body[0]] + [body[1]];
    assert SitePlan(SHADOWED, [], {"h"}) == Plan([], map[], []) && SiteRenames(SHADOWED, [], {"h"}) == (map[], []);
    assert nothing + nothing == nothing && [] + body == body;
  }

  // ----- a local of a guarded tail that is called like a temporary -----

  const TEMP_X := "__inl_x"

  /** The plan for a helper that uses its one parameter `x`. */
  lemma {:induction false} PlanOfOne(c: Candidate, v: Value)
    requires c.f.params == ["x"] && c.Used("x")
    ensures SitePlan(c, Args(Some(v)), {"h"}) == Plan([Decl(TEMP_X, Lit(9, v))], map["x" := ToVar(TEMP_X)], [TEMP_X])
  {
    hide FreeBlock;
    assert TEMP + "x" == TEMP_X && FreshName(TEMP_X, {"h"}) == TEMP_X;
    assert PlanFrom(c, Args(Some(v)), 1, {"h"} + {TEMP_X}) == Plan([], map[], []);
  }

  const CAPTURED_TAIL := [Decl(TEMP_X, Lit(1, Num(1))), ExprS(Assign("r", Var(2, "x")))]

  const CAPTURED_HELPER := Fun("h", ["x"], [If(Var(0, "x"), [Jump(Return)], [])] + CAPTURED_TAIL, false)

  const CAPTURED := Candidate(CAPTURED_HELPER, [Var(0, "x")], CAPTURED_TAIL)

  /** `h(x) { if (x) return; const __inl_x = 1; r = x; }`: inside the inverted `if` the
      temporary for `x` is hidden by the local of the same name. */
  lemma {:induction false} CapturedTemporaryChanges(w: World)
    ensures Changes(["r"], CAPTURED, [], Some(Num(0)), w, [], State([Some(Num(9))], []),
                    Visible(Normal, [Some(Num(0))], []), Visible(Normal, [Some(Num(1))], []))
  {
    hide Analyze, Yields, Invoke, ExecBlock, SiteCode, InlineInto, Bind;
    var p, st := CallingModule(["r"], CAPTURED_HELPER, [], Some(Num(0))), State([Some(Num(9))], []);
    assert st.heap + ParamCells(0, []) == st.heap;
    CapturedAnalyzed();
    CapturedBefore(Machine(p, w), st);
    CallRuns(["r"], CAPTURED_HELPER, [], Some(Num(0)), w, [], st,
      (Normal, State([Some(Num(0)), Some(Num(0)), Some(Num(1))], [])));
    var q := InlineInto(p, CAPTURED);
    CallInlined(["r"], CAPTURED, [], Some(Num(0)));
    var r' := (Normal, State([Some(Num(1)), Some(Num(0)), Some(Num(1))], []));
    forall fuel: nat
      ensures ExecBlock(Machine(q, w), SiteCode(CAPTURED, CallOf(Some(Num(0))), {"h"}), Bind([], 1, GlobalEnv(q)), st,
          fuel) == r'
    {
      CapturedAfter(Machine(q, w), fuel);
    }
    InlinedRuns(["r"], CAPTURED, [], Some(Num(0)), w, [], st, r');
    assert [Some(Num(0)), Some(Num(0)), Some(Num(1))][..1] == [Some(Num(0))] && r'.1.heap[..1] == [Some(Num(1))];
  }

  lemma {:induction false} CapturedShape()
    ensures var body := CAPTURED_HELPER.body;
      && body[1..] == CAPTURED_TAIL && Declared(body) == Declared(CAPTURED_TAIL) == [TEMP_X]
      && LeadingGuards(body) == [Var(0, "x")]
      && FreeStmts(body) == {"x", "r", TEMP_X} && WritesStmts(body) == {"r"} && LocalsStmts(body) == {TEMP_X}
      && StmtsNames(body) == {"x", "r", TEMP_X}
      && CallsNone(body, "h") && NoEscape(CAPTURED_TAIL, false)
  {
    var body, guard, tail := CAPTURED_HELPER.body, CAPTURED_HELPER.body[0], CAPTURED_TAIL;
    var back, jump := tail[1..], [Jump(Return)];
    assert body[1..] == tail && back[1..] == [] && jump[1..] == [];
    assert Elements<string>([]) == {};
    assert Declared(back) == [];
    assert tail == [tail[0]] + back && Declared(tail) == [TEMP_X] + Declared(back);
    assert Declared(body) == Declared(tail);
    assert LeadingGuards(tail) == [] && LeadingGuards(body) == [Var(0, "x")] + [];
    assert Declared(jump) == [] && FreeBlock(jump) == {} && WritesBlock(jump) == {} && StmtsNames(jump) == {};
    assert LocalsStmts(jump) == {};
    assert FreeStmt(guard) == {"x"} && StmtNames(guard) == {"x"} && WritesStmt(guard) == {} && LocalsStmt(guard) == {};
    assert FreeStmts(back) == {"x", "r"} && StmtsNames(back) == {"x", "r"} && WritesStmts(back) == {"r"};
    assert LocalsStmts(back) == {};
    assert FreeStmts(tail) == {"x", "r", TEMP_X} && StmtsNames(tail) == {"x", "r", TEMP_X};
    assert WritesStmts(tail) == {"r"};
    assert LocalsStmts(tail) == {TEMP_X};
    assert CallsNone(jump, "h") && CallsNone(back, "h") && CallsNone(tail, "h");
    assert NoEscape([], false) && NoEscape(back, false);
  }

  lemma {:induction false} CapturedAnalyzed()
    ensures Analyze(CallingModule(["r"], CAPTURED_HELPER, [], Some(Num(0))), CAPTURED_HELPER, 3) == Some(CAPTURED)
  {
    CapturedShape();
    assert Elements<string>([]) == {} && Elements(["x"]) == {"x"} && Elements([TEMP_X]) == {TEMP_X};
    assert WritesBlock(CAPTURED_HELPER.body) == {"r"};
    assert FreeNames(CAPTURED_HELPER) == {"r"};
    CallAnalyzed(["r"], CAPTURED, [], Some(Num(0)));
  }

  lemma {:induction false} CapturedGuard(m: Machine, env: Env, st: State)
    requires "x" in env && env["x"] < |st.heap| && st.heap[env["x"]] == Some(Num(0))
    ensures ExecStmt(m, CAPTURED_HELPER.body[0], env, st, 0) == (Normal, st)
  {
    hide ExecBlock;
    assert Eval(m.w, Var(0, "x"), env, st) == (Norm(Num(0)), st);
    GuardBlocks(m, env, st, 0);
  }

  /** The tail's two statements in a new block, where `x` reads as `v`. */
  lemma {:induction false} CapturedTailRuns(m: Machine, y: string, env: Env, st: State, v: Value, fuel: nat)
    requires TEMP_X in env && env[TEMP_X] < |st.heap| && "r" in env && env["r"] < |st.heap| && st.heap[env["r"]].Some?
    requires Read(y, env, st.(heap := st.heap[env[TEMP_X] := Some(Num(1))])) == Norm(v) && env["r"] != env[TEMP_X]
    ensures ExecStmts(m, [Decl(TEMP_X, Lit(1, Num(1))), ExprS(Assign("r", Var(2, y)))], env, st, fuel)
      == (Normal, st.(heap := st.heap[env[TEMP_X] := Some(Num(1))][env["r"] := Some(v)]))
  {
    hide ExecStmts;
    var first, second := Decl(TEMP_X, Lit(1, Num(1))), ExprS(Assign("r", Var(2, y)));
    var st1 := st.(heap := st.heap[env[TEMP_X] := Some(Num(1))]);
    assert ExecStmt(m, first, env, st, fuel) == (Normal, st1);
    assert Eval(m.w, Var(2, y), env, st1) == (Norm(v), st1);
    HeadStep(m, first, [second], env, st, fuel);
    OneStep(m, second, env, st1, fuel);
    assert [first] + [second] == [first, second];
  }

  lemma {:induction false} CapturedBefore(m: Machine, st: State)
    requires m.p.globals == ["r"] && st == State([Some(Num(9))], [])
    ensures Invoke(m, CAPTURED_HELPER, [Num(0)], st, 0)
      == (Normal, State([Some(Num(0)), Some(Num(0)), Some(Num(1))], []))
  {
    hide ExecStmts, ExecStmt, ExecBlock, Eval, Bind;
    CapturedShape();
    OneGlobal(m.p, "r");
    BindOne("x", 1, GlobalEnv(m.p));
    var env := GlobalEnv(m.p)["x" := 1];
    CallBlock(m, CAPTURED_HELPER, [Num(0)], st, 0);
    var st1, st2 := State([Some(Num(9)), Some(Num(0))], []), State([Some(Num(9)), Some(Num(0)), None], []);
    assert st.heap + ParamCells(1, [Num(0)]) == st1.heap;
    BlockOfOne(m, CAPTURED_HELPER.body, TEMP_X, env, st1, 0);
    BindOne(TEMP_X, 2, env);
    assert st1.heap + [None] == st2.heap;
    var env1 := env[TEMP_X := 2];
    var guard := CAPTURED_HELPER.body[0];
    CapturedGuard(m, env1, st2);
    HeadStep(m, guard, CAPTURED_TAIL, env1, st2, 0);
    CapturedTailRuns(m, "x", env1, st2, Num(0), 0);
    assert st2.heap[2 := Some(Num(1))][0 := Some(Num(0))] == [Some(Num(0)), Some(Num(0)), Some(Num(1))];
  }

  /** A block that declares one name. */
  lemma {:induction false} BlockOfOne(m: Machine, ss: seq<Stmt>, y: string, env: Env, st: State, fuel: nat)
    requires Declared(ss) == [y]
    ensures ExecBlock(m, ss, env, st, fuel)
      == ExecStmts(m, ss, Bind([y], |st.heap|, env), st.(heap := st.heap + [None]), fuel)
  {
    hide ExecStmts, Bind;
    assert EmptyCells(1) == [None];
  }

  const CAPTURED_CODE := [Decl(TEMP_X, Lit(1, Num(1))), ExprS(Assign("r", Var(2, TEMP_X)))]

  /** The inverted `if`, with the temporary at 0. */
  lemma {:induction false} CapturedIf(m: Machine, env: Env, st: State, fuel: nat)
    requires env == map["r" := 0, TEMP_X := 1] && st == State([Some(Num(9)), Some(Num(0))], [])
    ensures ExecStmts(m, [If(Not(Paren(Var(0, TEMP_X))), CAPTURED_CODE, [])], env, st, fuel)
      == (Normal, State([Some(Num(1)), Some(Num(0)), Some(Num(1))], []))
  {
    hide ExecStmts, ExecBlock, Bind;
    var cond, tail, st2 := Not(Paren(Var(0, TEMP_X))), CAPTURED_CODE, State([Some(Num(9)), Some(Num(0)), None], []);
    assert Eval(m.w, cond.e, env, st) == (Norm(Num(0)), st);
    assert Eval(m.w, cond, env, st) == (Norm(Bool(true)), st);
    IfStep(m, cond, tail, env, st, fuel);
    assert Declared(tail[1..][1..]) == [] && Declared(tail[1..]) == [];
    assert Declared(tail) == [TEMP_X] + [];
    BlockOfOne(m, tail, TEMP_X, env, st, fuel);
    BindOne(TEMP_X, 2, env);
    assert st.heap + [None] == st2.heap;
    CapturedTailRuns(m, TEMP_X, env[TEMP_X := 2], st2, Num(1), fuel);
    assert st2.heap[2 := Some(Num(1))][0 := Some(Num(1))] == [Some(Num(1)), Some(Num(0)), Some(Num(1))];
  }

  lemma {:induction false} CapturedAfter(m: Machine, fuel: nat)
    requires m.p.globals == ["r"]
    ensures ExecBlock(m, SiteCode(CAPTURED, CallOf(Some(Num(0))), {"h"}), Bind([], 1, GlobalEnv(m.p)),
        State([Some(Num(9))], []), fuel)
      == (Normal, State([Some(Num(1)), Some(Num(0)), Some(Num(1))], []))
  {
    hide ExecStmts, ExecBlock, Bind, SiteCode;
    var first, second := Decl(TEMP_X, Lit(9, Num(0))), If(Not(Paren(Var(0, TEMP_X))), CAPTURED_CODE, []);
    CapturedCode();
    OneGlobal(m.p, "r");
    BindNothing(1, GlobalEnv(m.p));
    TempFirst(m, Num(0), [second], map["r" := 0], State([Some(Num(9))], []), fuel) by {
      assert [second][1..] == [];
    }
    var env: Env := map["r" := 0];
    assert env[TEMP_X := 1] == map["r" := 0, TEMP_X := 1];
    assert [Some(Num(9))] + [Some(Num(0))] == [Some(Num(9)), Some(Num(0))];
    CapturedIf(m, env[TEMP_X := 1], State([Some(Num(9)), Some(Num(0))], []), fuel);
    assert [first] + [second] == [first, second];
  }

  /** A block that begins with the temporary for a literal argument, and declares nothing else. */
  lemma {:induction false} TempFirst(m: Machine, v: Value, rest: seq<Stmt>, env: Env, st: State, fuel: nat)
    requires Declared(rest) == []
    ensures ExecBlock(m, [Decl(TEMP_X, Lit(9, v))] + rest, env, st, fuel)
      == ExecStmts(m, rest, env[TEMP_X := |st.heap|], st.(heap := st.heap + [Some(v)]), fuel)
  {
    hide ExecStmts, ExecBlock, Bind;
    var first := Decl(TEMP_X, Lit(9, v));
    DeclaredCons(first, rest);
    BlockOfOne(m, [first] + rest, TEMP_X, env, st, fuel);
    BindOne(TEMP_X, |st.heap|, env);
    var env1, st1 := env[TEMP_X := |st.heap|], st.(heap := st.heap + [None]);
    assert st1.heap[|st.heap| := Some(v)] == st.heap + [Some(v)];
    assert ExecStmt(m, first, env1, st1, fuel) == (Normal, st.(heap := st.heap + [Some(v)]));
    HeadStep(m, first, rest, env1, st1, fuel);
  }

  lemma {:induction false} CapturedCode()
    ensures SiteCode(CAPTURED, CallOf(Some(Num(0))), {"h"})
      == [Decl(TEMP_X, Lit(9, Num(0))), If(Not(Paren(Var(0, TEMP_X))), CAPTURED_CODE, [])]
  {
    hide PlanFrom, RewriteBlock, Condition, FreeBlock;
    CapturedUses();
    PlanOfOne(CAPTURED, Num(0));
    CapturedTailCode();
    ConditionOfX();
  }

  lemma {:induction false} CapturedUses()
    ensures CAPTURED.Used("x")
  {
    CapturedShape();
    assert Elements([TEMP_X]) == {TEMP_X};
  }

  lemma {:induction false} ConditionOfX()
    ensures Condition([Var(0, "x")], map["x" := ToVar(TEMP_X)]) == Not(Paren(Var(0, TEMP_X)))
  {
    var sub: Sub := map["x" := ToVar(TEMP_X)];
    var guards := [Var(0, "x")];
    assert guards[1..] == [] && SubArgs(guards, sub) == [Var(0, TEMP_X)];
    hide ParseAt, CombineGuards;
    CombineGuardsReadsBack([Var(0, TEMP_X)]);
  }

  lemma {:induction false} CapturedTailCode()
    ensures RewriteBlock(None, CAPTURED_TAIL, map["x" := ToVar(TEMP_X)]) == CAPTURED_CODE
  {
    CapturedShape();
    var sub: Sub := map["x" := ToVar(TEMP_X)];
    var tail, back := CAPTURED_TAIL, CAPTURED_TAIL[1..];
    assert Elements([TEMP_X]) == {TEMP_X} && sub - {TEMP_X} == sub && back[1..] == [];
    assert SubE(Var(2, "x"), sub) == Var(2, TEMP_X);
    assert RewriteStmt(None, back[0], sub) == ExprS(Assign("r", Var(2, TEMP_X)));
    assert RewriteStmts(None, [], sub, StmtsNames(tail)) == [];
    assert RewriteStmts(None, back, sub, StmtsNames(tail)) == [ExprS(Assign("r", Var(2, TEMP_X)))] + [];
    assert RewriteStmts(None, tail, sub, StmtsNames(tail)) == [tail[0]] + [ExprS(Assign("r", Var(2, TEMP_X)))];
  }

  // ----- a global called like a temporary -----

  /** `h(x) { r = x && global; }` */
  function ReadingHelper(global: string): Fun {
    Fun("h", ["x"], [ExprS(Assign("r", And(Var(0, "x"), Var(1, global))))], false)
  }

  function Reading(global: string): Candidate { Candidate(ReadingHelper(global), [], ReadingHelper(global).body) }

  function ReadingModule(global: string): Program {
    CallingModule([global, "r"], ReadingHelper(global), [], Some(Num(5)))
  }

  lemma {:induction false} ReadingShape(global: string)
    requires global !in {"x", "h", "main", "r"}
    ensures var body := ReadingHelper(global).body;
      && Declared(body) == [] && LeadingGuards(body) == [] && FreeBlock(body) == {"x", "r", global}
      && WritesBlock(body) == {"r"}
      && StmtsNames(body) == {"x", "r", global} && LocalsStmts(body) == {} && CallsNone(body, "h")
      && NoEscape(body, false)
      && NoCapture(map["x" := ToVar(TEMP_X)], body)
  {
    var e := And(Var(0, "x"), Var(1, global));
    OneExpr(Assign("r", e));
    assert Elements<string>([]) == {};
    assert Names(e) == {"x", global} && Writes(e.l) == {} && Writes(e.r) == {} && Writes(e) == {};
    assert Names(Assign("r", e)) == {"x", "r", global} && Writes(Assign("r", e)) == {"r"};
  }

  lemma {:induction false} ReadingAnalyzed(global: string)
    requires global !in {"x", "h", "main", "r"}
    ensures Analyze(ReadingModule(global), ReadingHelper(global), 3) == Some(Reading(global))
  {
    ReadingShape(global);
    var h := ReadingHelper(global);
    assert h.body[0..] == h.body && Elements<string>([]) == {} && Elements(["x"]) == {"x"};
    CallAnalyzed([global, "r"], Reading(global), [], Some(Num(5)));
  }

  lemma {:induction false} ReadingPlan(global: string)
    requires global !in {"x", "h", "main", "r"}
    ensures var c, args := Reading(global), Args(Some(Num(5)));
      && SiteNames(c, args, {"h"}) == [TEMP_X] && SiteSub(c, args, {"h"}) == map["x" := ToVar(TEMP_X)]
      && SitePlan(c, args, {"h"}) == Plan([Decl(TEMP_X, Lit(9, Num(5)))], map["x" := ToVar(TEMP_X)], [TEMP_X])
      && SiteRenames(c, args, {"h"}) == (map[], [])
  {
    ReadingShape(global);
    PlanOfOne(Reading(global), Num(5));
    var sub: Sub := map["x" := ToVar(TEMP_X)];
    assert sub + map[] == sub;
  }

  /** With any other name of the global, the call site is clean and the module well-formed. */
  lemma {:induction false} ReadingGood(global: string, w: World)
    requires global !in {"x", "h", "main", "r", TEMP_X}
    ensures Good(Job(ReadingModule(global), w, Reading(global)))
  {
    var p, c := ReadingModule(global), Reading(global);
    ReadingAnalyzed(global);
    ReadingShape(global);
    ReadingPlan(global);
    assert Elements([TEMP_X]) == {TEMP_X} && Elements(["x"]) == {"x"} && Elements<string>([]) == {};
    assert Outside(c.f) == {"r", global};
    assert CleanSite(c, Args(Some(Num(5))), {}, {"h"});
    CallClean([global, "r"], c, [], Some(Num(5)));
    ReadingWellFormed(global);
    assert p.funs[0] == c.f;
  }

  lemma {:induction false} CallClean(globals: seq<string>, c: Candidate, params: seq<string>, arg: Option<Value>)
    requires c.f.name == "h" && CallsNone(c.f.body, "h") && CleanSite(c, Args(arg), Elements(params), {"h"})
    requires ArgNames(c.guards) !! Elements(Declared(c.tail))
    ensures Hygienic(CallingModule(globals, c.f, params, arg), c)
  {
    hide CleanSite, SiteNames;
    var p := CallingModule(globals, c.f, params, arg);
    NoCallsClean(c, c.f.body, Elements(c.f.params));
    CallNames(arg);
    assert Elements(params) + {} == Elements(params);
    assert CleanHere(c, [CallOf(arg)][1..], Elements(params), {"h"} + Elements(SiteNames(c, Args(arg), {"h"})));
    assert CleanBelow(c, [CallOf(arg)][1..], Elements(params));
    assert IsSite(Some(c), CallOf(arg)) && CleanBelowStmt(c, CallOf(arg), Elements(params));
    assert CleanHere(c, [CallOf(arg)], Elements(params), {"h"}) && CleanBelow(c, [CallOf(arg)], Elements(params));
    assert CleanBlock(c, [CallOf(arg)], Elements(params));
    assert forall g :: g in p.funs ==> g == c.f || g == MainFun(params, arg);
  }

  lemma {:induction false} NoCallsClean(c: Candidate, ss: seq<Stmt>, scope: set<string>)
    requires CallsNone(ss, c.f.name)
    ensures CleanBlock(c, ss, scope)
    decreases ss, 2
  {
    NoCallsCleanStmts(c, ss, scope + Elements(Declared(ss)), StmtsNames(ss));
  }

  lemma {:induction false} NoCallsCleanStmts(c: Candidate, ss: seq<Stmt>, scope: set<string>, taken: set<string>)
    requires CallsNone(ss, c.f.name)
    ensures CleanHere(c, ss, scope, taken) && CleanBelow(c, ss, scope)
    decreases ss, 1
  {
    hide CleanSite;
    if ss != [] {
      match ss[0] {
        case If(_, a, b) =>
          NoCallsClean(c, a, scope);
          NoCallsClean(c, b, scope);
        case While(_, b) => NoCallsClean(c, b, scope);
        case _ =>
      }
      NoCallsCleanStmts(c, ss[1..], scope, taken);
    }
  }

  lemma {:induction false} CallWellFormed(globals: seq<string>, h: Fun, params: seq<string>, arg: Option<Value>)
    requires h.name == "h" && NoDup(globals) && NoDup(params) && "h" !in globals && "main" !in globals && "h" !in params
    requires WellFormedFun(h)
    ensures WellFormed(CallingModule(globals, h, params, arg))
  {
    var p, m := CallingModule(globals, h, params, arg), MainFun(params, arg);
    MainWellFormed(params, arg);
    hide WellFormedFun;
    assert forall f :: f in p.funs ==> f == h || f == m;
  }

  lemma {:induction false} PlainWellFormed(f: Fun)
    requires NoDup(f.params) && |f.body| == 1 && !f.body[0].Decl? && WellFormedStmt(f.body[0], Elements(f.params))
    ensures WellFormedFun(f)
  {
    var scope := Elements(f.params);
    assert f.body[1..] == [] && Declared(f.body[1..]) == [] && Declared(f.body) == [] && Elements<string>([]) == {};
    assert scope + {} == scope;
    assert WellFormedStmts([], scope);
  }

  lemma {:induction false} MainWellFormed(params: seq<string>, arg: Option<Value>)
    requires NoDup(params) && "h" !in params
    ensures WellFormedFun(MainFun(params, arg))
  {
    assert WellFormedStmt(CallOf(arg), Elements(params));
    PlainWellFormed(MainFun(params, arg));
  }

  lemma {:induction false} ReadingWellFormed(global: string)
    requires global !in {"x", "h", "main", "r"}
    ensures WellFormed(ReadingModule(global))
  {
    var h := ReadingHelper(global);
    ReadingShape(global);
    assert Elements<string>([]) == {} && Elements(["x"]) == {"x"} && {"x"} + {} == {"x"};
    assert WellFormedStmts(h.body[1..], {"x"});
    var e := And(Var(0, "x"), Var(1, global));
    assert Shaped(e.l) && Shaped(e.r);
    assert Shaped(e);
    assert Shaped(Assign("r", e));
    assert WellFormedFun(h);
    CallWellFormed([global, "r"], h, [], Some(Num(5)));
  }

  /** What the helper's statement does, where `x` and the global are found under the given names. */
  lemma {:induction false} ReadingRuns(m: Machine, x: string, global: string, env: Env, st: State, v: Value, fuel: nat)
    requires Read(x, env, st) == Norm(Num(5)) && Read(global, env, st) == Norm(v) && "r" in env && env["r"] < |st.heap|
    requires st.heap[env["r"]].Some?
    ensures ExecStmts(m, [ExprS(Assign("r", And(Var(0, x), Var(1, global))))], env, st, fuel)
      == (Normal, st.(heap := st.heap[env["r"] := Some(v)]))
  {
    hide ExecStmts;
    var e := And(Var(0, x), Var(1, global));
    assert Eval(m.w, e.l, env, st) == (Norm(Num(5)), st) && Eval(m.w, e.r, env, st) == (Norm(v), st);
    assert Eval(m.w, e, env, st) == (Norm(v), st);
    OneStep(m, ExprS(Assign("r", e)), env, st, fuel);
  }

  lemma {:induction false} ReadingBefore(m: Machine)
    requires m.p.globals == [TEMP_X, "r"]
    ensures Invoke(m, ReadingHelper(TEMP_X), [Num(5)], State([Some(Num(7)), Some(Num(0))], []), 0)
      == (Normal, State([Some(Num(7)), Some(Num(7)), Some(Num(5))], []))
  {
    hide ExecStmts, ExecBlock, Bind;
    var h, st := ReadingHelper(TEMP_X), State([Some(Num(7)), Some(Num(0))], []);
    var st1 := State([Some(Num(7)), Some(Num(0)), Some(Num(5))], []);
    ReadingShape(TEMP_X);
    TwoGlobals(m.p, TEMP_X, "r");
    BindOne("x", 2, GlobalEnv(m.p));
    CallBlock(m, h, [Num(5)], st, 0);
    assert st.heap + ParamCells(1, [Num(5)]) == st1.heap;
    var env := GlobalEnv(m.p)["x" := 2];
    NoDeclarations(m, h.body, env, st1, 0);
    ReadingRuns(m, "x", TEMP_X, env, st1, Num(7), 0);
    assert st1.heap[1 := Some(Num(7))] == [Some(Num(7)), Some(Num(7)), Some(Num(5))];
  }

  lemma {:induction false} ReadingTail()
    ensures RewriteStmts(None, ReadingHelper(TEMP_X).body, map["x" := ToVar(TEMP_X)], {})
      == [ExprS(Assign("r", And(Var(0, TEMP_X), Var(1, TEMP_X))))]
  {
    var body, sub := ReadingHelper(TEMP_X).body, map["x" := ToVar(TEMP_X)];
    var e := And(Var(0, "x"), Var(1, TEMP_X));
    assert SubE(e.l, sub) == Var(0, TEMP_X) && SubE(e.r, sub) == Var(1, TEMP_X);
    assert SubE(e, sub) == And(Var(0, TEMP_X), Var(1, TEMP_X));
    assert RewriteStmt(None, body[0], sub) == ExprS(Assign("r", And(Var(0, TEMP_X), Var(1, TEMP_X))));
    assert body[1..] == [] && RewriteStmts(None, [], sub, {}) == [];
    assert RewriteStmts(None, body, sub, {}) == [ExprS(Assign("r", And(Var(0, TEMP_X), Var(1, TEMP_X))))] + [];
  }

  lemma {:induction false} ReadingCode()
    ensures SiteCode(Reading(TEMP_X), CallOf(Some(Num(5))), {"h"})
      == [Decl(TEMP_X, Lit(9, Num(5)))] + [ExprS(Assign("r", And(Var(0, TEMP_X), Var(1, TEMP_X))))]
  {
    hide RewriteStmts, SitePlan, SiteRenames;
    ReadingPlan(TEMP_X);
    ReadingTail();
    var sub: Sub := map["x" := ToVar(TEMP_X)];
    assert sub + map[] == sub;
  }

  lemma {:induction false} ReadingAfter(m: Machine, fuel: nat)
    requires m.p.globals == [TEMP_X, "r"]
    ensures ExecBlock(m, SiteCode(Reading(TEMP_X), CallOf(Some(Num(5))), {"h"}), Bind([], 2, GlobalEnv(m.p)),
                      State([Some(Num(7)), Some(Num(0))], []), fuel)
      == (Normal, State([Some(Num(7)), Some(Num(5)), Some(Num(5))], []))
  {
    hide ExecStmts, ExecBlock, Bind, SiteCode;
    var st, st1 := State([Some(Num(7)), Some(Num(0))], []), State([Some(Num(7)), Some(Num(0)), Some(Num(5))], []);
    var rest := [ExprS(Assign("r", And(Var(0, TEMP_X), Var(1, TEMP_X))))];
    ReadingCode();
    TwoGlobals(m.p, TEMP_X, "r");
    BindNothing(2, GlobalEnv(m.p));
    assert rest[1..] == [] && Declared(rest[1..]) == [];
    TempFirst(m, Num(5), rest, GlobalEnv(m.p), st, fuel);
    assert st.heap + [Some(Num(5))] == st1.heap;
    ReadingRuns(m, TEMP_X, TEMP_X, GlobalEnv(m.p)[TEMP_X := 2], st1, Num(5), fuel);
    assert st1.heap[1 := Some(Num(5))] == [Some(Num(7)), Some(Num(5)), Some(Num(5))];
  }

  /** `h(x) { r = x && __inl_x; }` with a global `__inl_x`: inlined, it reads the temporary. */
  lemma {:induction false} CapturedGlobalChanges(w: World)
    ensures Changes([TEMP_X, "r"], Reading(TEMP_X), [], Some(Num(5)), w, [], State([Some(Num(7)), Some(Num(0))], []),
                    Visible(Normal, [Some(Num(7)), Some(Num(7))], []),
                    Visible(Normal, [Some(Num(7)), Some(Num(5))], []))
  {
    hide Analyze, Yields, Invoke, ExecBlock, SiteCode, InlineInto, Bind;
    var globals, c, arg, st := [TEMP_X, "r"], Reading(TEMP_X), Some(Num(5)), State([Some(Num(7)), Some(Num(0))], []);
    var p := CallingModule(globals, c.f, [], arg);
    assert st.heap + ParamCells(0, []) == st.heap;
    ReadingAnalyzed(TEMP_X);
    ReadingBefore(Machine(p, w));
    CallRuns(globals, c.f, [], arg, w, [], st, (Normal, State([Some(Num(7)), Some(Num(7)), Some(Num(5))], [])));
    var q := InlineInto(p, c);
    CallInlined(globals, c, [], arg);
    var r' := (Normal, State([Some(Num(7)), Some(Num(5)), Some(Num(5))], []));
    forall fuel: nat
      ensures ExecBlock(Machine(q, w), SiteCode(c, CallOf(arg), {"h"}), Bind([], 2, GlobalEnv(q)), st, fuel) == r'
    {
      ReadingAfter(Machine(q, w), fuel);
    }
    InlinedRuns(globals, c, [], arg, w, [], st, r');
    assert [Some(Num(7)), Some(Num(7)), Some(Num(5))][..2] == [Some(Num(7)), Some(Num(7))];
    assert r'.1.heap[..2] == [Some(Num(7)), Some(Num(5))];
  }

  /** Inlining a helper that reads its parameter and a global keeps the meaning exactly
      when the global is not called like the parameter's temporary. */
  lemma {:induction false} ReadingExact(global: string, w: World)
    requires global !in {"x", "h", "main", "r"}
    ensures var p, c := ReadingModule(global), Reading(global);
      && Analyze(p, c.f, 3) == Some(c)
      && ((forall vs, st, v :: Yields(p, w, "main", vs, st, v) <==> Yields(InlineInto(p, c), w, "main", vs, st, v))
          <==> global != TEMP_X)
  {
    hide Analyze, Yields, InlineInto, Good;
    var p, c := ReadingModule(global), Reading(global);
    ReadingAnalyzed(global);
    if global == TEMP_X {
      CapturedGlobalChanges(w);
    } else {
      ReadingGood(global, w);
      FoundBoth(c.f, [], Some(Num(5)));
      forall vs, st, v ensures Yields(p, w, "main", vs, st, v) <==> Yields(InlineInto(p, c), w, "main", vs, st, v) {
        FreeRunOrdered(p, w, c, "main", vs, st);
        InliningPreservesMeaning(Job(p, w, c), "main", vs, st, v);
      }
    }
  }

  // ----- a local that keeps its name -----

  const LOCAL_HELPER := Fun("h", [], [Decl("y", Lit(0, Num(0))), ExprS(Op(1, "use", Var(2, "y"), Var(3, "y")))], false)

  const LOCAL := Candidate(LOCAL_HELPER, [], LOCAL_HELPER.body)

  lemma {:induction false} LocalShape()
    ensures var body := LOCAL_HELPER.body;
      && Declared(body) == ["y"] && LeadingGuards(body) == [] && FreeBlock(body) == {} && WritesBlock(body) == {}
      && StmtsNames(body) == {"y"} && LocalsStmts(body) == {"y"} && CallsNone(body, "h") && NoEscape(body, false)
      && InnerLocals(body) == {}
  {
    DeclThenExpr("y", Lit(0, Num(0)), Op(1, "use", Var(2, "y"), Var(3, "y")));
    TwoReads("y", "y");
    assert Elements(["y"]) == {"y"};
  }

  lemma {:induction false} LocalAnalyzed(params: seq<string>)
    requires params == [] || params == ["y"]
    ensures Analyze(CallingModule([], LOCAL_HELPER, params, None), LOCAL_HELPER, 3) == Some(LOCAL)
  {
    var h := LOCAL_HELPER;
    LocalShape();
    assert h.body[0..] == h.body && Elements<string>([]) == {};
    CallAnalyzed([], LOCAL, params, None);
  }

  lemma {:induction false} LocalSpared(params: seq<string>)
    requires params == [] || params == ["y"]
    ensures ParamsSpared(CallingModule([], LOCAL_HELPER, params, None), LOCAL) <==> params == []
  {
    hide NewNames, StmtsNames;
    var h, p := LOCAL_HELPER, CallingModule([], LOCAL_HELPER, params, None);
    LocalShape();
    LocalAdded();
    CallNames(None);
    NoCallsNoNames(LOCAL, h.body, StmtsNames(h.body));
    assert Elements<string>([]) == {} && Elements(["y"]) == {"y"};
    assert p.funs[0] == h && p.funs[1] == MainFun(params, None);
    assert forall g :: g in p.funs ==> g == h || g == MainFun(params, None);
    var main := MainFun(params, None);
    assert main in p.funs && Elements(NewNames(Some(LOCAL), main.body, StmtsNames(main.body))) == {"y"};
    if params == ["y"] { assert "y" in Elements(main.params); }
  }

  /** `h() { const y = 0; use(y, y); }`, called where a parameter may be called `y` too. */
  lemma {:induction false} LocalGood(params: seq<string>, w: World)
    requires params == [] || params == ["y"]
    ensures Good(Job(CallingModule([], LOCAL_HELPER, params, None), w, LOCAL))
    ensures ParamsSpared(CallingModule([], LOCAL_HELPER, params, None), LOCAL) <==> params == []
  {
    hide Hygienic, Analyze, WellFormed, PlainHelper, ParamsSpared;
    var p := CallingModule([], LOCAL_HELPER, params, None);
    LocalAnalyzed(params);
    LocalPlain();
    PlainIsHygienic(p, LOCAL, 3);
    LocalWellFormed(params);
    assert p.funs[0] == LOCAL_HELPER;
    LocalSpared(params);
  }

  lemma {:induction false} LocalPlain()
    ensures PlainHelper(LOCAL)
  {
    LocalShape();
    assert Outside(LOCAL_HELPER) == {} && Elements<string>([]) == {} && Elements(["y"]) == {"y"};
  }

  lemma {:induction false} LocalAdded()
    ensures NewNames(Some(LOCAL), [CallOf(None)], {"h"}) == ["y"]
  {
    LocalShape();
    assert SitePlan(LOCAL, [], {"h"}) == Plan([], map[], []);
    assert {"h"} + Elements<string>([]) == {"h"};
    assert ["y"][1..] == [] && RenameLocals(["y"], {"h"}).1 == ["y"] + [];
    assert SiteNames(LOCAL, [], {"h"}) == [] + ["y"];
    assert [CallOf(None)][1..] == [];
  }

  lemma {:induction false} LocalWellFormed(params: seq<string>)
    requires params == [] || params == ["y"]
    ensures WellFormed(CallingModule([], LOCAL_HELPER, params, None))
  {
    LocalShape();
    var h := LOCAL_HELPER;
    var back := h.body[1..];
    assert Elements<string>([]) == {} && Elements(["y"]) == {"y"} && {} + {"y"} == {"y"};
    assert WellFormedStmts([], {"y"}) && back[1..] == [] && WellFormedStmts(back, {"y"});
    assert WellFormedStmts(h.body, {"y"});
    assert WellFormedFun(h);
    CallWellFormed([], h, params, None);
  }

  /** Inlining it keeps the meaning, and the module stays well-formed exactly when the
      caller has no parameter `y`: otherwise `y` is declared twice in one scope. */
  lemma {:induction false} LocalKeepsItsName(params: seq<string>, w: World)
    requires params == [] || params == ["y"]
    ensures var p := CallingModule([], LOCAL_HELPER, params, None);
      && Analyze(p, LOCAL_HELPER, 3) == Some(LOCAL) && WellFormed(p)
      && (forall vs, st, v :: Yields(p, w, "main", vs, st, v) <==> Yields(InlineInto(p, LOCAL), w, "main", vs, st, v))
      && (WellFormed(InlineInto(p, LOCAL)) <==> params == [])
  {
    hide Yields, InlineInto;
    var p := CallingModule([], LOCAL_HELPER, params, None);
    LocalGood(params, w);
    FoundBoth(LOCAL_HELPER, params, None);
    hide Good;
    forall vs, st, v ensures Yields(p, w, "main", vs, st, v) <==> Yields(InlineInto(p, LOCAL), w, "main", vs, st, v) {
      FreeRunOrdered(p, w, LOCAL, "main", vs, st);
      InliningPreservesMeaning(Job(p, w, LOCAL), "main", vs, st, v);
    }
    InlinedIsWellFormed(Job(p, w, LOCAL));
    LocalAnalyzed(params);
    LocalWellFormed(params);
  }

  // ----- two rounds -----

  const FIRST_HELPER := Fun("a", ["x"], [ExprS(Op(1, "use", Var(2, "x"), Var(3, "x")))], false)

  const FIRST := Candidate(FIRST_HELPER, [], FIRST_HELPER.body)

  /** `y` is handed on to the first helper. */
  function HandOn(y: string): Stmt { Call("a", [Var(4, y)]) }

  /** `a(x) { use(x, x); }  h(y) { a(y); }  main() { h(1); }` */
  const CHAIN := Program([], [FIRST_HELPER, Fun("h", ["y"], [HandOn("y")], false), MainFun([], Some(Num(1)))])

  const SECOND_BODY := [Decl(TEMP_X, Var(4, "y")), ExprS(Op(1, "use", Var(2, TEMP_X), Var(3, TEMP_X)))]

  const SECOND_HELPER := Fun("h", ["y"], SECOND_BODY, false)

  const SECOND := Candidate(SECOND_HELPER, [], SECOND_BODY)

  lemma {:induction false} FirstShape()
    ensures var body := FIRST_HELPER.body;
      && Declared(body) == [] && LeadingGuards(body) == [] && FreeBlock(body) == {"x"} && WritesBlock(body) == {}
      && StmtsNames(body) == {"x"} && LocalsStmts(body) == {} && InnerLocals(body) == {} && NoEscape(body, false)
      && CallsNone(body, "a") && CallsNone(body, "h")
  {
    OneExpr(Op(1, "use", Var(2, "x"), Var(3, "x")));
    TwoReads("x", "x");
    assert Elements<string>([]) == {};
  }

  lemma {:induction false} HandOnShape(y: string)
    ensures var body := [HandOn(y)];
      && Declared(body) == [] && StmtsNames(body) == {"a", y} && !CallsNone(body, "a") && body[1..] == []
      && FreeStmts(body) == {"a", y}
  {
    var body, args := [HandOn(y)], [Var(4, y)];
    assert body[1..] == [] && args[1..] == [];
    assert ArgNames(args) == {y} + ArgNames([]);
    assert StmtsNames(body) == StmtNames(body[0]) + StmtsNames([]);
    assert FreeStmts(body) == FreeStmt(body[0]) + FreeStmts([]);
  }

  /** A helper `a` with one parameter and a flat tail, inlined where its argument is handed on. */
  lemma {:induction false} HandedOn(c: Candidate, y: string, code: seq<Stmt>)
    requires c.f.name == "a" && c.f.params == ["x"] && c.Used("x") && c.guards == [] && Declared(c.tail) == []
    requires y != TEMP_X
    requires RewriteStmts(None, c.tail, map["x" := ToVar(TEMP_X)], {}) == code
    ensures RewriteBlock(Some(c), [HandOn(y)], map[]) == [Decl(TEMP_X, Var(4, y))] + code
    ensures NewNames(Some(c), [HandOn(y)], {"a", y}) == [TEMP_X]
  {
    hide FreeBlock;
    var args, taken := [Var(4, y)], {"a", y};
    var sub: Sub := map["x" := ToVar(TEMP_X)];
    var nothing: Sub := map[];
    HandOnShape(y);
    assert TEMP + "x" == TEMP_X && FreshName(TEMP_X, taken) == TEMP_X;
    assert PlanFrom(c, args, 1, taken + {TEMP_X}) == Plan([], map[], []);
    assert SitePlan(c, args, taken) == Plan([Decl(TEMP_X, Var(4, y))], sub, [TEMP_X]);
    assert SiteRenames(c, args, taken) == (map[], []) && sub + nothing == sub;
    assert SiteNames(c, args, taken) == [TEMP_X] + [];
    assert SiteCode(c, HandOn(y), taken) == [Decl(TEMP_X, Var(4, y))] + code;
    hide SiteCode, SiteNames, PlanFrom;
    assert RewriteStmts(Some(c), [], nothing, taken + {TEMP_X}) == [];
    assert Elements([TEMP_X]) == {TEMP_X} && Elements<string>([]) == {} && nothing - {} == nothing;
    assert RewriteStmts(Some(c), [HandOn(y)], nothing, taken) == ([Decl(TEMP_X, Var(4, y))] + code) + [];
    assert NewNames(Some(c), [], taken + {TEMP_X}) == [];
    assert NewNames(Some(c), [HandOn(y)], taken) == [TEMP_X] + [];
  }

  /** The first round puts the first helper's code into the second helper. */
  lemma {:induction false} HandedOnCode()
    ensures RewriteBlock(Some(FIRST), [HandOn("y")], map[]) == SECOND_BODY
    ensures NewNames(Some(FIRST), [HandOn("y")], {"a", "y"}) == [TEMP_X]
  {
    var body, e := FIRST_HELPER.body, Op(1, "use", Var(2, "x"), Var(3, "x"));
    var sub: Sub := map["x" := ToVar(TEMP_X)];
    FirstShape();
    assert SubE(e.l, sub) == Var(2, TEMP_X) && SubE(e.r, sub) == Var(3, TEMP_X);
    assert RewriteStmt(None, body[0], sub) == SECOND_BODY[1];
    assert body[1..] == [] && RewriteStmts(None, [], sub, {}) == [];
    assert RewriteStmts(None, body, sub, {}) == [SECOND_BODY[1]] + [];
    HandedOn(FIRST, "y", [SECOND_BODY[1]]);
    assert [SECOND_BODY[0]] + [SECOND_BODY[1]] == SECOND_BODY;
  }

  /** Other calls are left as they are. */
  lemma {:induction false} OtherCall(c: Candidate, params: seq<string>, arg: Option<Value>)
    requires c.f.name != "h"
    ensures RewriteBlock(Some(c), [CallOf(arg)], map[]) == [CallOf(arg)]
    ensures NewNames(Some(c), [CallOf(arg)], {"h"}) == []
    ensures CallsNone([CallOf(arg)], c.f.name)
  {
    var nothing: Sub := map[];
    CallNames(arg);
    assert nothing - {} == nothing;
    assert SubArgs(Args(arg), nothing) == Args(arg) by {
      if arg.Some? { assert Args(arg)[1..] == [] && SubArgs(Args(arg), nothing) == Args(arg) + []; }
    }
    assert RewriteStmts(Some(c), [], nothing, {"h"}) == [] && CallsNone([], c.f.name);
    assert RewriteStmt(Some(c), CallOf(arg), nothing) == CallOf(arg);
    assert RewriteStmts(Some(c), [CallOf(arg)], nothing, {"h"}) == [CallOf(arg)] + [];
    assert NewNames(Some(c), [CallOf(arg)][1..], {"h"}) == [];
  }

  lemma {:induction false} FirstRound()
    ensures InlineInto(CHAIN, FIRST) == CallingModule([], SECOND_HELPER, [], Some(Num(1)))
  {
    hide RewriteBlock;
    HandedOnCode();
    OtherCall(FIRST, [], Some(Num(1)));
    var funs := CHAIN.funs;
    var h, main := funs[1], funs[2];
    assert funs[1..] == [h, main] && funs[1..][1..] == [main] && [main][1..] == [];
    assert RewriteFuns(FIRST, []) == [];
    assert RewriteFuns(FIRST, [main]) == [main] + [];
    assert RewriteFuns(FIRST, [h, main]) == [SECOND_HELPER] + [main];
  }

  lemma {:induction false} FirstAnalyzed()
    ensures Analyze(CHAIN, FIRST_HELPER, 3) == Some(FIRST)
  {
    FirstShape();
    HandOnShape("y");
    OtherCall(FIRST, [], Some(Num(1)));
    var h, main := CHAIN.funs[1], CHAIN.funs[2];
    assert FIRST_HELPER.body[0..] == FIRST_HELPER.body && Elements<string>([]) == {} && Elements(["x"]) == {"x"};
    assert Elements(["y"]) == {"y"};
    assert FreeNames(FIRST_HELPER) == {};
    NoCallsSitesOk(FIRST, FIRST_HELPER.body, {"x"});
    NoCallsSitesOk(FIRST, main.body, {});
    assert SitesOk(FIRST, [HandOn("y")][1..], {"y"}) && {"y"} + {} == {"y"};
    assert SitesOkStmt(FIRST, HandOn("y"), {"y"});
    assert SitesOkBlock(FIRST, [HandOn("y")], {"y"});
    forall g | g in CHAIN.funs ensures SitesOkBlock(FIRST, g.body, Elements(g.params)) {
      assert g == FIRST_HELPER || g == h || g == main;
    }
    assert h in CHAIN.funs && !CallsNone(h.body, "a");
  }

  lemma {:induction false} FirstPlain()
    ensures PlainHelper(FIRST)
  {
    FirstShape();
    assert Outside(FIRST_HELPER) == {} && Elements<string>([]) == {} && Elements(["x"]) == {"x"};
  }

  lemma {:induction false} FirstHygienic()
    ensures Hygienic(CHAIN, FIRST)
  {
    hide Hygienic, Analyze, PlainHelper;
    FirstAnalyzed();
    FirstPlain();
    PlainIsHygienic(CHAIN, FIRST, 3);
  }

  lemma {:induction false} FirstSpared()
    ensures ParamsSpared(CHAIN, FIRST)
  {
    hide NewNames, StmtsNames;
    var h, main := CHAIN.funs[1], CHAIN.funs[2];
    FirstShape();
    HandOnShape("y");
    HandedOnCode();
    OtherCall(FIRST, [], Some(Num(1)));
    CallNames(Some(Num(1)));
    NoCallsNoNames(FIRST, FIRST_HELPER.body, {"x"});
    assert Elements<string>([]) == {} && Elements(["y"]) == {"y"} && Elements([TEMP_X]) == {TEMP_X};
    assert forall g :: g in CHAIN.funs ==> g == FIRST_HELPER || g == h || g == main;
  }

  lemma {:induction false} FirstClean()
    ensures Hygienic(CHAIN, FIRST) && ParamsSpared(CHAIN, FIRST)
  {
    hide Hygienic, ParamsSpared;
    FirstHygienic();
    FirstSpared();
  }

  lemma {:induction false} ChainWellFormed()
    ensures WellFormed(CHAIN)
  {
    var h, main := CHAIN.funs[1], CHAIN.funs[2];
    FirstWellFormed();
    HandOnWellFormed("y");
    MainWellFormed([], Some(Num(1)));
    hide WellFormedFun;
    assert forall g :: g in CHAIN.funs ==> g == FIRST_HELPER || g == h || g == main;
  }

  lemma {:induction false} FirstWellFormed()
    ensures WellFormedFun(FIRST_HELPER)
  {
    assert Shaped(Var(2, "x")) && Shaped(Var(3, "x"));
    PlainWellFormed(FIRST_HELPER);
  }

  lemma {:induction false} HandOnWellFormed(y: string)
    requires y != "a"
    ensures WellFormedFun(Fun("h", [y], [HandOn(y)], false))
  {
    assert Shaped(Var(4, y)) && Elements([y]) == {y};
    PlainWellFormed(Fun("h", [y], [HandOn(y)], false));
  }

  lemma {:induction false} SecondShape()
    ensures
      && Declared(SECOND_BODY) == [TEMP_X] && LeadingGuards(SECOND_BODY) == [] && FreeBlock(SECOND_BODY) == {"y"}
      && WritesBlock(SECOND_BODY) == {} && StmtsNames(SECOND_BODY) == {"y", TEMP_X}
      && LocalsStmts(SECOND_BODY) == {TEMP_X}
      && InnerLocals(SECOND_BODY) == {} && NoEscape(SECOND_BODY, false) && CallsNone(SECOND_BODY, "h")
  {
    DeclThenExpr(TEMP_X, Var(4, "y"), Op(1, "use", Var(2, TEMP_X), Var(3, TEMP_X)));
    TwoReads(TEMP_X, TEMP_X);
    assert Elements([TEMP_X]) == {TEMP_X};
  }

  lemma {:induction false} SecondAnalyzed()
    ensures Analyze(CallingModule([], SECOND_HELPER, [], Some(Num(1))), SECOND_HELPER, 3) == Some(SECOND)
  {
    SecondShape();
    assert SECOND_BODY[0..] == SECOND_BODY && Elements<string>([]) == {} && Elements(["y"]) == {"y"};
    CallAnalyzed([], SECOND, [], Some(Num(1)));
  }

  lemma {:induction false} SecondPlain()
    ensures PlainHelper(SECOND)
  {
    SecondShape();
    assert Outside(SECOND_HELPER) == {} && Elements<string>([]) == {} && Elements(["y"]) == {"y"};
  }

  lemma {:induction false} SecondSpared()
    ensures ParamsSpared(CallingModule([], SECOND_HELPER, [], Some(Num(1))), SECOND)
  {
    hide NewNames;
    var p, main := CallingModule([], SECOND_HELPER, [], Some(Num(1))), MainFun([], Some(Num(1)));
    SecondShape();
    assert Elements<string>([]) == {} && Elements(["y"]) == {"y"};
    NoCallsNoNames(SECOND, SECOND_BODY, {"y", TEMP_X});
    assert forall g :: g in p.funs ==> g == SECOND_HELPER || g == main;
  }

  lemma {:induction false} SecondClean()
    ensures var p := CallingModule([], SECOND_HELPER, [], Some(Num(1))); Hygienic(p, SECOND) && ParamsSpared(p, SECOND)
  {
    hide Hygienic, Analyze, PlainHelper, ParamsSpared;
    SecondAnalyzed();
    SecondPlain();
    PlainIsHygienic(CallingModule([], SECOND_HELPER, [], Some(Num(1))), SECOND, 3);
    SecondSpared();
  }

  lemma {:induction false} NoCandidate(p: Program, main: Fun)
    requires p.funs == [main] && main.exported
    ensures FirstCandidate(p, 0, 3).None?
  {
    assert FirstCandidate(p, 1, 3).None?;
  }

  /** A chain of two helpers without guards: both rounds are clean, and both helpers go,
      although the second round splices in a temporary of the first under its own name. */
  lemma {:induction false} ChainClean(limit: nat)
    requires limit >= 2
    ensures WellFormed(CHAIN) && CleanRounds(CHAIN, 3, limit) && Rounds(CHAIN, 3, limit).1 == ["a", "h"]
  {
    hide Analyze, Hygienic, ParamsSpared, WellFormed, InlineInto;
    var p1, main := CallingModule([], SECOND_HELPER, [], Some(Num(1))), MainFun([], Some(Num(1)));
    ChainWellFormed();
    FirstAnalyzed();
    FirstClean();
    FirstRound();
    SecondAnalyzed();
    SecondClean();
    CallInlined([], SECOND, [], Some(Num(1)));
    var p2 := InlineInto(p1, SECOND);
    NoCandidate(p2, p2.funs[0]);
    assert CHAIN.funs[0] == FIRST_HELPER && FirstCandidate(CHAIN, 0, 3) == Some(FIRST);
    assert p1.funs[0] == SECOND_HELPER && FirstCandidate(p1, 0, 3) == Some(SECOND);
    RoundsStep(CHAIN, 3, limit);
    RoundsStep(p1, 3, limit - 1);
    RoundsStep(p2, 3, limit - 2);
    assert CleanRounds(p2, 3, limit - 2);
    assert CleanRounds(p1, 3, limit - 1);
  }

  // ----- a chain through a block -----

  const SETTER := Fun("a", ["x"], [ExprS(Assign("r", Var(2, "x")))], false)

  const SETTING := Candidate(SETTER, [], SETTER.body)

  const TRUE := Lit(5, Bool(true))

  /** `a(x) { r = x; }  h(x) { if (true) { a(x); } }  main() { h(1); }` */
  const NESTING := Program(["r"], [SETTER, Fun("h", ["x"], [If(TRUE, [HandOn("x")], [])], false),
    MainFun([], Some(Num(1)))])

  const NESTED_INNER := [Decl(TEMP_X, Var(4, "x")), ExprS(Assign("r", Var(2, TEMP_X)))]

  const NESTED_HELPER := Fun("h", ["x"], [If(TRUE, NESTED_INNER, [])], false)

  const NESTED := Candidate(NESTED_HELPER, [], NESTED_HELPER.body)

  lemma {:induction false} SetterShape()
    ensures var body := SETTER.body;
      && Declared(body) == [] && LeadingGuards(body) == [] && FreeBlock(body) == {"x", "r"}
      && WritesBlock(body) == {"r"}
      && StmtsNames(body) == {"x", "r"} && LocalsStmts(body) == {} && NoEscape(body, false) && CallsNone(body, "a")
  {
    OneExpr(Assign("r", Var(2, "x")));
    assert Elements<string>([]) == {};
  }

  lemma {:induction false} SetterCode()
    ensures RewriteBlock(Some(SETTING), [HandOn("x")], map[]) == NESTED_INNER
  {
    var body := SETTER.body;
    var sub: Sub := map["x" := ToVar(TEMP_X)];
    SetterShape();
    assert SubE(Var(2, "x"), sub) == Var(2, TEMP_X);
    assert RewriteStmt(None, body[0], sub) == NESTED_INNER[1];
    assert body[1..] == [] && RewriteStmts(None, [], sub, {}) == [];
    assert RewriteStmts(None, body, sub, {}) == [NESTED_INNER[1]] + [];
    HandedOn(SETTING, "x", [NESTED_INNER[1]]);
    assert [NESTED_INNER[0]] + [NESTED_INNER[1]] == NESTED_INNER;
  }

  lemma {:induction false} NestingRound()
    ensures InlineInto(NESTING, SETTING) == CallingModule(["r"], NESTED_HELPER, [], Some(Num(1)))
  {
    SetterCode();
    OtherCall(SETTING, [], Some(Num(1)));
    var funs := NESTING.funs;
    var h, main := funs[1], funs[2];
    NestingBody(h.body);
    hide RewriteBlock;
    assert funs[1..] == [h, main] && funs[1..][1..] == [main] && [main][1..] == [];
    assert RewriteFuns(SETTING, []) == [];
    assert RewriteFuns(SETTING, [main]) == [main] + [];
    assert RewriteFuns(SETTING, [h, main]) == [NESTED_HELPER] + [main];
  }

  lemma {:induction false} NestingBody(body: seq<Stmt>)
    requires body == [If(TRUE, [HandOn("x")], [])]
    ensures RewriteBlock(Some(SETTING), body, map[]) == NESTED_HELPER.body
  {
    var nothing: Sub := map[];
    SetterCode();
    hide SiteCode, SiteNames;
    assert body[1..] == [] && Declared(body[1..]) == [] && Declared(body) == [] && Elements<string>([]) == {};
    assert nothing - {} == nothing;
    assert RewriteStmts(Some(SETTING), [], nothing, StmtsNames(body)) == [];
    assert RewriteBlock(Some(SETTING), [], nothing) == [];
    assert RewriteStmt(Some(SETTING), body[0], nothing) == NESTED_HELPER.body[0];
    assert RewriteStmts(Some(SETTING), body, nothing, StmtsNames(body)) == [NESTED_HELPER.body[0]] + [];
  }

  lemma {:induction false} SetterSites()
    ensures SitesOkBlock(SETTING, SETTER.body, {"x"}) && SitesOkBlock(SETTING, NESTING.funs[1].body, {"x"})
    ensures SitesOkBlock(SETTING, NESTING.funs[2].body, {})
  {
    SetterShape();
    HandOnShape("x");
    OtherCall(SETTING, [], Some(Num(1)));
    var h, main := NESTING.funs[1], NESTING.funs[2];
    assert Elements<string>([]) == {};
    assert FreeNames(SETTER) == {"r"} by { assert Elements(["x"]) == {"x"}; }
    NoCallsSitesOk(SETTING, SETTER.body, {"x"});
    NoCallsSitesOk(SETTING, main.body, {});
    NoCallsSitesOk(SETTING, [], {"x"});
    assert {"x"} + {} == {"x"} && SitesOk(SETTING, [HandOn("x")][1..], {"x"});
    assert SitesOkStmt(SETTING, HandOn("x"), {"x"});
    assert SitesOkBlock(SETTING, [HandOn("x")], {"x"});
    assert h.body[1..] == [] && Declared(h.body[1..]) == [] && Declared(h.body) == [];
    assert SitesOk(SETTING, h.body[1..], {"x"}) && SitesOkStmt(SETTING, h.body[0], {"x"});
  }

  lemma {:induction false} SetterCalled()
    ensures !CallsNone(NESTING.funs[1].body, "a") && NESTING.funs[1] in NESTING.funs
  {
    HandOnShape("x");
    var h := NESTING.funs[1];
    assert !CallsNoneStmt(h.body[0], "a");
  }

  lemma {:induction false} SetterAnalyzed()
    ensures Analyze(NESTING, SETTER, 3) == Some(SETTING)
  {
    hide SitesOkBlock, CallsNone, WritesBlock, LeadingGuards, NoEscape;
    SetterShape();
    SetterSites();
    SetterCalled();
    assert SETTER.body[0..] == SETTER.body && Elements<string>([]) == {} && Elements(["x"]) == {"x"};
    forall g | g in NESTING.funs ensures SitesOkBlock(SETTING, g.body, Elements(g.params)) {
      assert g == SETTER || g == NESTING.funs[1] || g == NESTING.funs[2];
    }
  }

  lemma {:induction false} NestedShape()
    ensures var body := NESTED_HELPER.body;
      && Declared(body) == [] && LeadingGuards(body) == [] && FreeBlock(body) == {"x", "r"}
      && WritesBlock(body) == {"r"}
      && StmtsNames(body) == {"x", "r", TEMP_X} && LocalsStmts(body) == {TEMP_X} && NoEscape(body, false)
      && CallsNone(body, "h")
      && Declared(NESTED_INNER) == [TEMP_X] && body[1..] == []
  {
    var body := NESTED_HELPER.body;
    DeclThenExpr(TEMP_X, Var(4, "x"), Assign("r", Var(2, TEMP_X)));
    assert body[1..] == [] && Elements<string>([]) == {} && Elements([TEMP_X]) == {TEMP_X};
    assert FreeBlock(NESTED_INNER) == {"x", "r"} && WritesBlock(NESTED_INNER) == {"r"};
    assert FreeBlock([]) == {} && WritesBlock([]) == {} && StmtsNames([]) == {} && LocalsStmts([]) == {};
    assert FreeStmts(body) == FreeStmt(body[0]) + FreeStmts([]);
    assert WritesStmts(body) == WritesStmt(body[0]) + WritesStmts([]);
    assert StmtNames(body[0]) == {"x", "r", TEMP_X} && LocalsStmt(body[0]) == {TEMP_X};
    assert StmtsNames(body) == StmtNames(body[0]) + StmtsNames([]);
    assert LocalsStmts(body) == LocalsStmt(body[0]) + LocalsStmts([]);
    assert Declared(body) == [];
    assert NoEscape([], false) && CallsNone([], "h") && CallsNoneStmt(body[0], "h") && NoEscapeStmt(body[0], false);
  }

  lemma {:induction false} NestedAnalyzed()
    ensures Analyze(CallingModule(["r"], NESTED_HELPER, [], Some(Num(1))), NESTED_HELPER, 3) == Some(NESTED)
  {
    NestedShape();
    assert NESTED_HELPER.body[0..] == NESTED_HELPER.body && Elements<string>([]) == {} && Elements(["x"]) == {"x"};
    CallAnalyzed(["r"], NESTED, [], Some(Num(1)));
  }

  /** The inner block, where `x` is read under another name than the block's own. */
  lemma {:induction false} NestedBefore(m: Machine)
    requires m.p.globals == ["r"]
    ensures Invoke(m, NESTED_HELPER, [Num(1)], State([Some(Num(9))], []), 0)
      == (Normal, State([Some(Num(1)), Some(Num(1)), Some(Num(1))], []))
  {
    hide ExecStmts, ExecBlock, Bind;
    NestedShape();
    OneGlobal(m.p, "r");
    BindOne("x", 1, GlobalEnv(m.p));
    var st, st1 := State([Some(Num(9))], []), State([Some(Num(9)), Some(Num(1))], []);
    var st2 := State([Some(Num(9)), Some(Num(1)), None], []);
    var env := GlobalEnv(m.p)["x" := 1];
    CallBlock(m, NESTED_HELPER, [Num(1)], st, 0);
    assert st.heap + ParamCells(1, [Num(1)]) == st1.heap;
    NoDeclarations(m, NESTED_HELPER.body, env, st1, 0);
    assert Eval(m.w, TRUE, env, st1) == (Norm(Bool(true)), st1);
    IfStep(m, TRUE, NESTED_INNER, env, st1, 0);
    BlockOfOne(m, NESTED_INNER, TEMP_X, env, st1, 0);
    BindOne(TEMP_X, 2, env);
    assert st1.heap + [None] == st2.heap;
    NestedInnerRuns(m, env[TEMP_X := 2], st2);
  }

  lemma {:induction false} NestedInnerRuns(m: Machine, env: Env, st: State)
    requires env == map["r" := 0, "x" := 1, TEMP_X := 2] && st == State([Some(Num(9)), Some(Num(1)), None], [])
    ensures ExecStmts(m, NESTED_INNER, env, st, 0) == (Normal, State([Some(Num(1)), Some(Num(1)), Some(Num(1))], []))
  {
    hide ExecStmts;
    var first, second := NESTED_INNER[0], NESTED_INNER[1];
    var st1 := State([Some(Num(9)), Some(Num(1)), Some(Num(1))], []);
    assert Eval(m.w, Var(4, "x"), env, st) == (Norm(Num(1)), st) && st.heap[2 := Some(Num(1))] == st1.heap;
    assert ExecStmt(m, first, env, st, 0) == (Normal, st1);
    HeadStep(m, first, [second], env, st, 0);
    assert [first] + [second] == NESTED_INNER;
    assert Eval(m.w, Var(2, TEMP_X), env, st1) == (Norm(Num(1)), st1);
    OneStep(m, second, env, st1, 0);
    assert st1.heap[0 := Some(Num(1))] == [Some(Num(1)), Some(Num(1)), Some(Num(1))];
  }

  const NESTED_CODE := [Decl(TEMP_X, Var(4, TEMP_X)), ExprS(Assign("r", Var(2, TEMP_X)))]

  lemma {:induction false} NestedCode()
    ensures SiteCode(NESTED, CallOf(Some(Num(1))), {"h"})
      == [Decl(TEMP_X, Lit(9, Num(1)))] + [If(TRUE, NESTED_CODE, [])]
  {
    NestedShape();
    PlanOfOne(NESTED, Num(1));
    NestedInnerCode();
    hide RewriteBlock;
    var body := NESTED_HELPER.body;
    var sub: Sub := map["x" := ToVar(TEMP_X)];
    assert SiteRenames(NESTED, Args(Some(Num(1))), {"h"}) == (map[], []) && sub + map[] == sub;
    assert RewriteBlock(None, [], sub) == [] by { NothingRewritten(sub); }
    assert RewriteStmt(None, body[0], sub) == If(TRUE, NESTED_CODE, []);
    assert RewriteStmts(None, [], sub, {}) == [];
    assert RewriteStmts(None, body, sub, {}) == [If(TRUE, NESTED_CODE, [])] + [];
  }

  lemma {:induction false} NothingRewritten(sub: Sub)
    ensures RewriteBlock(None, [], sub) == []
  {
  }

  lemma {:induction false} NestedInnerCode()
    ensures RewriteBlock(None, NESTED_INNER, map["x" := ToVar(TEMP_X)]) == NESTED_CODE
  {
    NestedShape();
    var sub: Sub := map["x" := ToVar(TEMP_X)];
    var inner, back := NESTED_INNER, NESTED_INNER[1..];
    var taken := StmtsNames(inner);
    assert Elements([TEMP_X]) == {TEMP_X} && sub - {TEMP_X} == sub && back == [inner[1]] && back[1..] == [];
    assert SubE(Var(4, "x"), sub) == Var(4, TEMP_X) && SubE(Var(2, TEMP_X), sub) == Var(2, TEMP_X);
    assert RewriteStmt(None, inner[0], sub) == NESTED_CODE[0] && RewriteStmt(None, inner[1], sub) == NESTED_CODE[1];
    assert RewriteStmts(None, [], sub, taken) == [];
    assert RewriteStmts(None, back, sub, taken) == [NESTED_CODE[1]] + [];
    assert RewriteStmts(None, inner, sub, taken) == [NESTED_CODE[0]] + [NESTED_CODE[1]];
  }

  lemma {:induction false} NestedAfter(m: Machine, fuel: nat)
    requires m.p.globals == ["r"]
    ensures ExecBlock(m, SiteCode(NESTED, CallOf(Some(Num(1))), {"h"}), Bind([], 1, GlobalEnv(m.p)),
        State([Some(Num(9))], []), fuel)
      == (Throws(REFERENCE_ERROR), State([Some(Num(9)), Some(Num(1)), None], []))
  {
    hide ExecStmts, ExecBlock, Bind, SiteCode;
    var st, st1 := State([Some(Num(9))], []), State([Some(Num(9)), Some(Num(1))], []);
    var env := GlobalEnv(m.p);
    var rest := [If(TRUE, NESTED_CODE, [])];
    NestedCode();
    OneGlobal(m.p, "r");
    BindNothing(1, GlobalEnv(m.p));
    assert rest[1..] == [] && Declared(rest[1..]) == [];
    TempFirst(m, Num(1), rest, env, st, fuel);
    assert st.heap + [Some(Num(1))] == st1.heap;
    var env1 := env[TEMP_X := 1];
    assert Eval(m.w, TRUE, env1, st1) == (Norm(Bool(true)), st1);
    IfStep(m, TRUE, NESTED_CODE, env1, st1, fuel);
    DeclThenExpr(TEMP_X, Var(4, TEMP_X), Assign("r", Var(2, TEMP_X)));
    BlockOfOne(m, NESTED_CODE, TEMP_X, env1, st1, fuel);
    BindOne(TEMP_X, 2, env1);
    var env2, st2 := env1[TEMP_X := 2], State([Some(Num(9)), Some(Num(1)), None], []);
    assert st1.heap + [None] == st2.heap;
    assert Eval(m.w, Var(4, TEMP_X), env2, st2) == (Thrown(REFERENCE_ERROR), st2);
    assert ExecStmt(m, NESTED_CODE[0], env2, st2, fuel) == (Throws(REFERENCE_ERROR), st2);
    HeadStep(m, NESTED_CODE[0], [NESTED_CODE[1]], env2, st2, fuel);
    assert [NESTED_CODE[0]] + [NESTED_CODE[1]] == NESTED_CODE;
  }

  /** The first round hides a temporary in a block of the second helper; the second round
      substitutes a temporary of the same name into that block, where it reads itself. */
  lemma {:induction false} NestedChainChanges(w: World)
    ensures FirstCandidate(NESTING, 0, 3) == Some(SETTING)
    ensures InlineInto(NESTING, SETTING) == CallingModule(["r"], NESTED_HELPER, [], Some(Num(1)))
    ensures Changes(["r"], NESTED, [], Some(Num(1)), w, [], State([Some(Num(9))], []),
                    Visible(Normal, [Some(Num(1))], []), Visible(Throws(REFERENCE_ERROR), [Some(Num(9))], []))
  {
    hide Analyze, Yields, Invoke, ExecBlock, SiteCode, InlineInto, Bind;
    SetterAnalyzed();
    assert NESTING.funs[0] == SETTER;
    NestingRound();
    var p, st := CallingModule(["r"], NESTED_HELPER, [], Some(Num(1))), State([Some(Num(9))], []);
    assert st.heap + ParamCells(0, []) == st.heap;
    NestedAnalyzed();
    NestedBefore(Machine(p, w));
    CallRuns(["r"], NESTED_HELPER, [], Some(Num(1)), w, [], st,
      (Normal, State([Some(Num(1)), Some(Num(1)), Some(Num(1))], [])));
    var q := InlineInto(p, NESTED);
    CallInlined(["r"], NESTED, [], Some(Num(1)));
    var r' := (Throws(REFERENCE_ERROR), State([Some(Num(9)), Some(Num(1)), None], []));
    forall fuel: nat
      ensures ExecBlock(Machine(q, w), SiteCode(NESTED, CallOf(Some(Num(1))), {"h"}), Bind([], 1, GlobalEnv(q)), st,
          fuel) == r'
    {
      NestedAfter(Machine(q, w), fuel);
    }
    InlinedRuns(["r"], NESTED, [], Some(Num(1)), w, [], st, r');
    assert [Some(Num(1)), Some(Num(1)), Some(Num(1))][..1] == [Some(Num(1))] && r'.1.heap[..1] == [Some(Num(9))];
  }
}