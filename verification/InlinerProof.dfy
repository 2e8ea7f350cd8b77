/**
 The simulation, by induction over step budget and code.
 */
module InlinerProof {
  import opened Basics
  import opened Expressions
  import opened GuardText
  import opened GuardInversion
  import opened Programs
  import opened Inliner
  import opened InlinerMemory
  import opened InlinerNames
  import opened InlinerOrder
  import opened InlinerSim
  import opened InlinerSite

  ghost predicate SimStmtNow(j: Job, x: Ctx, m: Mem, b2: Inj, s: Stmt) {
    Sim(x.fwd, m, b2, x.keep, {}, ExecStmt(j.Before(), s, x.env, m.st, x.n),
        ExecStmt(j.After(), RewriteStmt(x.co, s, x.s), x.env', m.st', x.k))
  }

  ghost predicate SimBlockNow(j: Job, x: Ctx, m: Mem, b2: Inj, ss: seq<Stmt>) {
    Sim(x.fwd, m, b2, x.keep, {}, ExecBlock(j.Before(), ss, x.env, m.st, x.n),
        ExecBlock(j.After(), RewriteBlock(x.co, ss, x.s), x.env', m.st', x.k))
  }

  ghost predicate SimStmtsNow(j: Job, x: Ctx, m: Mem, b2: Inj, ss: seq<Stmt>, taken: set<string>) {
    Sim(x.fwd, m, b2, x.keep, Locs(x.env', NewNames(x.co, ss, taken)), ExecStmts(j.Before(), ss, x.env, m.st, x.n),
        ExecStmts(j.After(), RewriteStmts(x.co, ss, x.s, taken), x.env', m.st', x.k))
  }

  lemma {:induction false} SimBlock(j: Job, x: Ctx, m: Mem, ss: seq<Stmt>) returns (b2: Inj)
    requires Good(j) && FuelOk(x) && BlockOk(j, x, ss) && MemOk(j, x, m) && DynOk(j, x)
    requires EnvRel(x.s, m, x.env, x.env', FreeBlock(ss))
    requires BlockOrdered(j.Before(), j.c, ss, x.env, m.st, x.n)
    ensures SimBlockNow(j, x, m, b2, ss)
    decreases x.n, ss, 2
  {
    hide StmtsOrdered, Good, Evolves, Related, EnvRel;
    Facts(j);
    var x1, m1 := EnterBlock(j, x, m, ss);
    var taken := StmtsNames(ss);
    assert DeclsRenamed(x1.s, ss);
    b2 := SimStmts(j, x1, m1, ss, taken);
    var own := Locs(x1.env', NewNames(x.co, ss, taken));
    var r := ExecStmts(j.Before(), ss, x1.env, m1.st, x.n);
    var r' := ExecStmts(j.After(), RewriteStmts(x.co, ss, x1.s, taken), x1.env', m1.st', x.k);
    ForgetNew(x.fwd, m, m1, b2, x.keep, own, r, r');
  }

  /** Cells of new names are themselves new when their block is entered. */
  lemma {:induction false} ForgetNew(fwd: bool, m: Mem, m1: Mem, b2: Inj, keep: set<nat>, own: set<nat>, r: Result,
    r': Result)
    requires Evolves(m, m1, keep, {}) && Sim(fwd, m1, b2, keep, own, r, r')
    requires forall l :: l in own ==> l >= |m.st'.heap|
    ensures Sim(fwd, m, b2, keep, {}, r, r')
  {
  }

  /** The names the first statement adds, and the names taken after it. */
  function HeadNames(j: Job, x: Ctx, ss: seq<Stmt>, taken: set<string>): seq<string>
    requires ss != []
  {
    if IsSite(x.co, ss[0]) then SiteNames(x.co.value, ss[0].args, taken) else []
  }

  function TakenAfter(j: Job, x: Ctx, ss: seq<Stmt>, taken: set<string>): set<string>
    requires ss != []
  {
    if IsSite(x.co, ss[0]) then taken + Elements(HeadNames(j, x, ss, taken)) else taken
  }

  lemma {:induction false} SimStmts(j: Job, x: Ctx, m: Mem, ss: seq<Stmt>, taken: set<string>) returns (b2: Inj)
    requires Good(j) && FuelOk(x) && StmtsOk(j, x, ss) && MemOk(j, x, m) && DynOk(j, x)
    requires EnvRel(x.s, m, x.env, x.env', FreeStmts(ss))
    requires Cells(x.env', NewNames(x.co, ss, taken), m, x.keep)
    requires x.co.Some? ==> CleanHere(j.c, ss, x.scope, taken)
    requires DeclsRenamed(x.s, ss)
    requires StmtsOrdered(j.Before(), j.c, ss, x.env, m.st, x.n)
    ensures SimStmtsNow(j, x, m, b2, ss, taken)
    decreases x.n, ss, 1
  {
    hide StmtsOrdered, StmtOrdered, Good, Evolves, Related, Cells, SiteNames, SiteCode, Locs, StmtsOk, FreeStmts;
    b2 := m.b;
    if ss == [] {
      EvolvesRefl(m, x.keep, Locs(x.env', []));
      return;
    }
    HeadOrdered(j.Before(), j.c, ss, x.env, m.st, x.n);
    var names, taken1 := HeadNames(j, x, ss, taken), TakenAfter(j, x, ss, taken);
    var restNames := NewNames(x.co, ss[1..], taken1);
    assert [] + restNames == restNames;
    assert NewNames(x.co, ss, taken) == names + restNames;
    CellsSplit(x.env', names, restNames, m, x.keep);
    var x1 := x.(keep := x.keep + Locs(x.env', restNames));
    assert MemOk(j, x1, m);
    StmtsParts(j, x, ss);
    assert StmtsOk(j, x1, ss) by {
      SameCode(j, x, x1, ss);
    }
    assert Cells(x1.env', names, m, x1.keep);
    var b1, r1' := SimHead(j, x1, m, ss, taken);
    var own := Locs(x.env', names);
    var r1 := ExecStmt(j.Before(), ss[0], x.env, m.st, x.n);
    b2 := b1;
    if !Dead(x.fwd, r1, r1') {
      var m1 := Mem(b1, r1.1, r1'.1);
      if r1.0 == Normal {
        MemStays(j, x, m, m1, x1.keep, own);
        CellsStay(x.env', restNames, m, m1, x.keep, x1.keep, own);
        EnvRelEvolves(x.s, m, m1, x.env, x.env', FreeStmts(ss), x1.keep, own);
        SmallerEnvRel(x.s, m1, x.env, x.env', FreeStmts(ss), FreeStmts(ss[1..]));
        b2 := SimStmts(j, x, m1, ss[1..], taken1);
        var rest := RewriteStmts(x.co, ss[1..], x.s, taken1);
        SimAfter(x.fwd, m, m1, b2, x.keep, Locs(x.env', restNames), ExecStmts(j.Before(), ss[1..], x.env, m1.st, x.n),
                 ExecStmts(j.After(), rest, x.env', m1.st', x.k), x1.keep, own, own + Locs(x.env', restNames));
      } else {
        Weaken(m, m1, x.keep, own + Locs(x.env', restNames), x1.keep, own);
      }
    }
  }

  lemma {:induction false} StmtsParts(j: Job, x: Ctx, ss: seq<Stmt>)
    requires ss != [] && StmtsOk(j, x, ss) && DeclsRenamed(x.s, ss)
    ensures StmtOk(j, x, ss[0]) && StmtsOk(j, x, ss[1..]) && DeclsRenamed(x.s, ss[1..])
    ensures ss[0].Decl? ==> WritesRenamed(x.s, {ss[0].x})
    ensures FreeStmts(ss) == FreeStmt(ss[0]) + FreeStmts(ss[1..])
  {
    assert forall y :: y in Declared(ss[1..]) ==> y in Declared(ss);
    assert ss[0].Decl? ==> ss[0].x in Declared(ss);
  }

  lemma {:induction false} SameCode(j: Job, x: Ctx, x1: Ctx, ss: seq<Stmt>)
    requires StmtsOk(j, x, ss) && x1 == x.(keep := x1.keep)
    ensures StmtsOk(j, x1, ss)
  {
  }

  lemma {:induction false} Weaken(m: Mem, m1: Mem, keep: set<nat>, own: set<nat>, keep1: set<nat>, own1: set<nat>)
    requires Evolves(m, m1, keep1, own1) && keep <= keep1 && own1 <= own
    ensures Evolves(m, m1, keep, own)
  {
  }

  /** The first statement of a list, whatever it is. */
  lemma {:induction false} SimHead(j: Job, x: Ctx, m: Mem, ss: seq<Stmt>, taken: set<string>)
    returns (b1: Inj, r1': Result)
    requires ss != [] && Good(j) && FuelOk(x) && StmtsOk(j, x, ss) && MemOk(j, x, m) && DynOk(j, x)
    requires EnvRel(x.s, m, x.env, x.env', FreeStmts(ss))
    requires Cells(x.env', HeadNames(j, x, ss, taken), m, x.keep)
    requires IsSite(x.co, ss[0]) ==> CleanSite(j.c, ss[0].args, x.scope, taken)
    requires DeclsRenamed(x.s, ss)
    requires StmtOrdered(j.Before(), j.c, ss[0], x.env, m.st, x.n)
    ensures Sim(x.fwd, m, b1, x.keep, Locs(x.env', HeadNames(j, x, ss, taken)),
                ExecStmt(j.Before(), ss[0], x.env, m.st, x.n), r1')
    ensures ExecStmts(j.After(), RewriteStmts(x.co, ss, x.s, taken), x.env', m.st', x.k) ==
      if r1'.0 != Normal then r1'
      else ExecStmts(j.After(), RewriteStmts(x.co, ss[1..], x.s, TakenAfter(j, x, ss, taken)), x.env', r1'.1, x.k)
    decreases x.n, ss, 0
  {
    hide StmtOrdered, Good, Evolves, Related, Cells, StmtsOk, FreeStmts, SiteNames, SiteCode;
    StmtsParts(j, x, ss);
    SmallerEnvRel(x.s, m, x.env, x.env', FreeStmts(ss), FreeStmt(ss[0]));
    var rest := RewriteStmts(x.co, ss[1..], x.s, TakenAfter(j, x, ss, taken));
    if IsSite(x.co, ss[0]) {
      b1 := SimSite(j, x, m, ss[0], taken);
      r1' := ExecStmts(j.After(), SiteCode(j.c, ss[0], taken), x.env', m.st', x.k);
      ExecAppend(j.After(), SiteCode(j.c, ss[0], taken), rest, x.env', m.st', x.k);
    } else {
      b1 := SimStmt(j, x, m, ss[0]);
      r1' := ExecStmt(j.After(), RewriteStmt(x.co, ss[0], x.s), x.env', m.st', x.k);
      HeadStep(j.After(), RewriteStmt(x.co, ss[0], x.s), rest, x.env', m.st', x.k);
      assert Locs(x.env', []) == {};
    }
  }

  lemma {:induction false} SimStmt(j: Job, x: Ctx, m: Mem, s: Stmt) returns (b2: Inj)
    requires Good(j) && FuelOk(x) && StmtOk(j, x, s) && MemOk(j, x, m) && DynOk(j, x) && !IsSite(x.co, s)
    requires EnvRel(x.s, m, x.env, x.env', FreeStmt(s))
    requires s.Decl? ==> WritesRenamed(x.s, {s.x})
    requires StmtOrdered(j.Before(), j.c, s, x.env, m.st, x.n)
    ensures SimStmtNow(j, x, m, b2, s)
    decreases x.n, s, 1
  {
    hide StmtOrdered, Good, Related;
    b2 := m.b;
    match s
    case ExprS(e) => var _ := EvalStep(j, x, m, e);
    case Decl(y, e) => DeclSim(j, x, m, y, e);
    case If(c, a, b) => b2 := SimIf(j, x, m, s);
    case While(_, _) => b2 := SimWhile(j, x, m, s);
    case Call(_, _) => b2 := SimCall(j, x, m, s);
    case Jump(_) => EvolvesRefl(m, x.keep, {});
  }

  lemma {:induction false} SimIf(j: Job, x: Ctx, m: Mem, s: Stmt) returns (b2: Inj)
    requires s.If?
    requires Good(j) && FuelOk(x) && StmtOk(j, x, s) && MemOk(j, x, m) && DynOk(j, x)
    requires EnvRel(x.s, m, x.env, x.env', FreeStmt(s))
    requires StmtOrdered(j.Before(), j.c, s, x.env, m.st, x.n)
    ensures SimStmtNow(j, x, m, b2, s)
    decreases x.n, s, 0
  {
    hide BlockOrdered, Good, Evolves, Related, Names, Writes, StmtsNames, FreeBlock, Log, GlobalsMapped, DynOk;
    var m1 := EvalStep(j, x, m, s.c);
    b2 := m.b;
    var o := Eval(j.w, s.c, x.env, m.st).0;
    if o.Norm? {
      var branch := if Truthy(o.v) then s.thn else s.els;
      assert BlockOk(j, x, branch);
      EnvRelEvolves(x.s, m, m1, x.env, x.env', FreeBlock(branch), x.keep, {});
      b2 := SimBlock(j, x, m1, branch);
      SimAfter(x.fwd, m, m1, b2, x.keep, {}, ExecBlock(j.Before(), branch, x.env, m1.st, x.n),
               ExecBlock(j.After(), RewriteBlock(x.co, branch, x.s), x.env', m1.st', x.k), x.keep, {}, {});
    }
  }

  lemma {:induction false} SimWhile(j: Job, x: Ctx, m: Mem, s: Stmt) returns (b2: Inj)
    requires s.While?
    requires Good(j) && FuelOk(x) && StmtOk(j, x, s) && MemOk(j, x, m) && DynOk(j, x)
    requires EnvRel(x.s, m, x.env, x.env', FreeStmt(s))
    requires StmtOrdered(j.Before(), j.c, s, x.env, m.st, x.n)
    ensures SimStmtNow(j, x, m, b2, s)
    decreases x.n, s, 0
  {
    hide BlockOrdered, Good, Evolves, Related, Names, Writes, StmtsNames, FreeBlock, Log, GlobalsMapped, DynOk;
    b2 := m.b;
    if x.n == 0 || x.k == 0 {
      return;
    }
    var m1 := EvalStep(j, x, m, s.c);
    var o := Eval(j.w, s.c, x.env, m.st).0;
    if o.Norm? && Truthy(o.v) {
      assert BlockOk(j, x, s.body);
      EnvRelEvolves(x.s, m, m1, x.env, x.env', FreeStmt(s), x.keep, {});
      var b1 := SimBlock(j, x, m1, s.body);
      var r := ExecBlock(j.Before(), s.body, x.env, m1.st, x.n);
      var r' := ExecBlock(j.After(), RewriteBlock(x.co, s.body, x.s), x.env', m1.st', x.k);
      SimAfter(x.fwd, m, m1, b1, x.keep, {}, r, r', x.keep, {}, {});
      b2 := b1;
      if !Dead(x.fwd, r, r') && (r.0 == Normal || r.0 == Jumped(Continue)) {
        b2 := SimAgain(j, x, m, Mem(b1, r.1, r'.1), s);
      }
    }
  }

  /** The next round of a loop. */
  lemma {:induction false} SimAgain(j: Job, x: Ctx, m: Mem, m2: Mem, s: Stmt) returns (b2: Inj)
    requires s.While? && x.n > 0 && x.k > 0
    requires Good(j) && FuelOk(x) && StmtOk(j, x, s) && MemOk(j, x, m) && DynOk(j, x)
    requires EnvRel(x.s, m, x.env, x.env', FreeStmt(s)) && Evolves(m, m2, x.keep, {})
    requires StmtOrdered(j.Before(), j.c, s, x.env, m2.st, x.n - 1)
    ensures Sim(x.fwd, m, b2, x.keep, {}, ExecStmt(j.Before(), s, x.env, m2.st, x.n - 1),
                ExecStmt(j.After(), RewriteStmt(x.co, s, x.s), x.env', m2.st', x.k - 1))
    decreases x.n - 1, s, 2
  {
    hide StmtOrdered, Good, Evolves, Related;
    var x2 := x.(n := x.n - 1, k := x.k - 1);
    MemStays(j, x, m, m2, x.keep, {});
    EnvRelEvolves(x.s, m, m2, x.env, x.env', FreeStmt(s), x.keep, {});
    assert StmtOk(j, x2, s) && DynOk(j, x2);
    b2 := SimStmt(j, x2, m2, s);
    SimAfter(x.fwd, m, m2, b2, x.keep, {}, ExecStmt(j.Before(), s, x.env, m2.st, x.n - 1),
             ExecStmt(j.After(), RewriteStmt(x.co, s, x.s), x.env', m2.st', x.k - 1), x.keep, {}, {});
  }

  lemma {:induction false} SimCall(j: Job, x: Ctx, m: Mem, s: Stmt) returns (b2: Inj)
    requires s.Call? && s.g != j.c.f.name
    requires Good(j) && FuelOk(x) && StmtOk(j, x, s) && MemOk(j, x, m) && DynOk(j, x)
    requires EnvRel(x.s, m, x.env, x.env', FreeStmt(s))
    requires StmtOrdered(j.Before(), j.c, s, x.env, m.st, x.n)
    ensures SimStmtNow(j, x, m, b2, s)
    decreases x.n, s, 0
  {
    hide InvokeOrdered, Good, Evolves, Related, Apart, EvalArgs, SubArgs, RewriteBlock, RewriteFuns, FindFun, Invoke,
         DynOk, StmtsNames, FreeBlock, ArgNames, ArgWrites;
    b2 := m.b;
    EvolvesRefl(m, x.keep, {});
    if x.n == 0 || x.k == 0 {
      return;
    }
    assert NameRel(x.s, m, x.env, x.env', s.g);
    FindRewritten(j.c, j.p.funs, s.g);
    FindIn(j.p.funs, s.g);
    ArgsSim(j.w, s.args, x.s, m, x.env, x.env', x.keep);
    var (vs, st1) := EvalArgs(j.w, s.args, x.env, m.st);
    var m1 := Mem(m.b, st1, EvalArgs(j.w, SubArgs(s.args, x.s), x.env', m.st').1);
    if vs.ArgValues? && s.g !in x.env && FindFun(j.p.funs, s.g).Some? {
      b2 := SimInvoke(j, x, m, m1, FindFun(j.p.funs, s.g).value, vs.vs);
    }
  }

  lemma {:induction false} SimInvoke(j: Job, x: Ctx, m: Mem, m1: Mem, h: Fun, vs: seq<Value>) returns (b2: Inj)
    requires Good(j) && FuelOk(x) && MemOk(j, x, m) && Evolves(m, m1, x.keep, {}) && x.n > 0 && x.k > 0
    requires h in j.p.funs
    requires InvokeOrdered(j.Before(), j.c, h, vs, m1.st, x.n - 1)
    ensures Sim(x.fwd, m, b2, x.keep, {}, Invoke(j.Before(), h, vs, m1.st, x.n - 1),
                Invoke(j.After(), h.(body := RewriteBlock(Some(j.c), h.body, map[])), vs, m1.st', x.k - 1))
    decreases x.n - 1, h.body, 3
  {
    hide BlockOrdered, GuardsOrdered, Good, Evolves, Related, EnvRel, WellFormedStmts, WellFormedStmt;
    MemStays(j, x, m, m1, x.keep, {});
    var x1, m2 := EnterCallee(j, x, m1, h, vs, x.n - 1, x.k - 1);
    b2 := SimBlock(j, x1, m2, h.body);
    EvolvesTrans(m, m1, m2, x.keep, {}, x.keep, {}, x.keep, {});
    SimAfter(x.fwd, m, m2, b2, x.keep, {}, Invoke(j.Before(), h, vs, m1.st, x.n - 1),
             Invoke(j.After(), h.(body := RewriteBlock(Some(j.c), h.body, map[])), vs, m1.st', x.k - 1), x.keep, {},
             {});
  }

  /** A call site of the helper, against the code put in its place. */
  lemma {:induction false} SimSite(j: Job, x: Ctx, m: Mem, s: Stmt, taken: set<string>) returns (b2: Inj)
    requires Good(j) && FuelOk(x) && StmtOk(j, x, s) && MemOk(j, x, m) && DynOk(j, x)
    requires IsSite(x.co, s) && EnvRel(x.s, m, x.env, x.env', FreeStmt(s))
    requires Cells(x.env', SiteNames(j.c, s.args, taken), m, x.keep)
    requires CleanSite(j.c, s.args, x.scope, taken)
    requires StmtOrdered(j.Before(), j.c, s, x.env, m.st, x.n)
    ensures Sim(x.fwd, m, b2, x.keep, Locs(x.env', SiteNames(j.c, s.args, taken)),
                ExecStmt(j.Before(), s, x.env, m.st, x.n),
                ExecStmts(j.After(), SiteCode(j.c, s, taken), x.env', m.st', x.k))
    decreases x.n, s, 1
  {
    hide InvokeOrdered, Good, Evolves, Related, EnvRel, Cells, StmtOk, DynOk, ExecStmts, SiteCode, SiteNames,
         RewriteStmts, FreeStmt, Locs, EvalArgs, Invoke, GlobalsMapped, PlanKnown, FindFun, Outside, StmtsNames,
         PlanFrom;
    b2 := m.b;
    if x.n == 0 {
      return;
    }
    var plan := SitePlan(j.c, s.args, taken);
    var names, locals := SiteNames(j.c, s.args, taken), SpliceNames(j.c, s.args, taken);
    OwnCells(x.env', names, m, x.keep);
    SiteKnown(j, x, s, taken);
    CodeAfterPrefix(j.c, s, taken);
    var code := SiteCode(j.c, s, taken)[|plan.prefix|..];
    ExecAppend(j.After(), plan.prefix, code, x.env', m.st', x.k);
    var (o, st1) := EvalArgs(j.w, s.args, x.env, m.st);
    var r1' := ExecStmts(j.After(), plan.prefix, x.env', m.st', x.k);
    var m1 := Mem(m.b, st1, r1'.1);
    SitePrefix(j, x, m, s, taken, plan, names, locals);
    if o.ArgValues? {
      b2 := SimHelper(j, x, m, m1, s, taken, o.vs);
      SimAfter(x.fwd, m, m1, b2, x.keep, Locs(x.env', names), AfterCall(Invoke(j.Before(), j.c.f, o.vs, st1, x.n - 1)),
               ExecStmts(j.After(), code, x.env', m1.st', x.k), x.keep, {}, Locs(x.env', names));
    } else {
      Weaken(m, m1, x.keep, Locs(x.env', names), x.keep, {});
    }
  }

  function SpliceNames(c: Candidate, args: seq<Expr>, taken: set<string>): seq<string> {
    if c.guards == [] then SiteRenames(c, args, taken).1 else []
  }

  /** The hoisted arguments, with the cells of spliced locals kept free. */
  lemma {:induction false} SitePrefix(j: Job, x: Ctx, m: Mem, s: Stmt, taken: set<string>, plan: Plan,
    names: seq<string>, locals: seq<string>)
    requires s.Call? && MemOk(j, x, m) && EnvRel(map[], m, x.env, x.env', FreeStmt(s)) && CandidateNames(j.c)
    requires |s.args| <= |j.c.f.params| && plan == SitePlan(j.c, s.args, taken) && names == plan.added + locals
    requires Cells(x.env', names, m, x.keep)
    ensures var (o, st1) := EvalArgs(j.w, s.args, x.env, m.st);
      var r1' := ExecStmts(j.After(), plan.prefix, x.env', m.st', x.k);
      && PrefixDone(j, x, m, plan, 0, o, st1, r1')
      && MemOk(j, x, Mem(m.b, st1, r1'.1))
      && |m.st'.heap| <= |r1'.1.heap|
      && (forall y :: y in locals ==> y in x.env' && x.env'[y] < |r1'.1.heap| && r1'.1.heap[x.env'[y]] == None)
  {
    var x1 := x.(keep := x.keep + Locs(x.env', locals));
    CellsSplit(x.env', plan.added, locals, m, x.keep);
    assert s.args[0..] == s.args;
    PrefixSim(j, x1, m, s.args, 0, taken);
    var (o, st1) := EvalArgs(j.w, s.args, x.env, m.st);
    var r1' := ExecStmts(j.After(), plan.prefix, x.env', m.st', x.k);
    var m1 := Mem(m.b, st1, r1'.1);
    Weaken(m, m1, x.keep, {}, x1.keep, {});
    MemStays(j, x, m, m1, x.keep, {});
    forall y | y in locals ensures y in x.env' && x.env'[y] < |r1'.1.heap| && r1'.1.heap[x.env'[y]] == None {
      assert CellFree(x.env', m, x.keep, y);
      assert x.env'[y] in Locs(x.env', locals);
    }
  }

  /** The helper's body against the code after the hoisted arguments. */
  lemma {:induction false} SimHelper(j: Job, x: Ctx, m: Mem, m1: Mem, s: Stmt, taken: set<string>, vs: seq<Value>)
    returns (b2: Inj)
    requires Good(j) && FuelOk(x) && x.n > 0 && MemOk(j, x, m) && MemOk(j, x, m1) && DynOk(j, x) && IsSite(x.co, s)
    requires x.co == Some(j.c) && CandidateNames(j.c) && Outside(j.c.f) !! x.scope && |vs| == |s.args|
    requires PlanKnown(j, x, SitePlan(j.c, s.args, taken), s.args) && m1.b == m.b && |m.st'.heap| <= |m1.st'.heap|
    requires Cells(x.env', SiteNames(j.c, s.args, taken), m, x.keep) && CleanSite(j.c, s.args, x.scope, taken)
    requires TempsHold(j.c, SitePlan(j.c, s.args, taken).sub, 0, vs, x.env', m1.st')
    requires forall y :: y in SpliceNames(j.c, s.args, taken) ==>
      y in x.env' && x.env'[y] < |m1.st'.heap| && m1.st'.heap[x.env'[y]] == None
    requires InvokeOrdered(j.Before(), j.c, j.c.f, vs, m1.st, x.n - 1)
    ensures Sim(x.fwd, m1, b2, x.keep, Locs(x.env', SiteNames(j.c, s.args, taken)),
                AfterCall(Invoke(j.Before(), j.c.f, vs, m1.st, x.n - 1)),
                ExecStmts(j.After(), SiteCode(j.c, s, taken)[|SitePlan(j.c, s.args, taken).prefix|..], x.env', m1.st',
                    x.k))
    decreases x.n, s, 0
  {
    hide InvokeOrdered, StmtsOrdered, GuardsOrdered, Good, Evolves, Related, EnvRel, Cells, DynOk, HelperEnv, PlanKnown,
         TempsHold, NamesApart, MemOk, ExecStmts, Invoke, PlanFrom, RewriteStmts, RewriteBlock, Condition, Outside,
         GlobalsMapped, SiteCode, RenameLocals, Locs, CallsNone, WritesBlock, NoEscape, SitesOkBlock, CleanBlock,
         WellFormedFun, Sim, StmtsNames, Declared;
    Facts(j);
    var plan := SitePlan(j.c, s.args, taken);
    var names, locals := SiteNames(j.c, s.args, taken), SpliceNames(j.c, s.args, taken);
    PlanApart(j.c, s.args, taken, locals);
    RenameNames(Declared(j.c.tail), taken + Elements(plan.added));
    var m2 := EnterHelper(j, x, m, m1, plan.sub, locals, names, vs);
    MemFacts(j, x, m1);
    InvokeHelper(j, vs, m1.st, x.n - 1);
    HelperOrdered(j, vs, m1.st, x.n - 1);
    PlanNames(j.c, s.args, 0, taken);
    assert j.c.f.params[0..] == j.c.f.params;
    CodeAfterPrefix(j.c, s, taken);
    var code := SiteCode(j.c, s, taken)[|plan.prefix|..];
    if j.c.guards == [] {
      var ren := SiteRenames(j.c, s.args, taken).0;
      OwnCells(x.env', names, m, x.keep);
      b2 := SimSpliced(j, x, m1, m2, plan, s.args, vs, ren, locals);
      SimAfter(x.fwd, m1, m2, b2, x.keep, {}, AfterCall(Invoke(j.Before(), j.c.f, vs, m1.st, x.n - 1)),
               ExecStmts(j.After(), code, x.env', m1.st', x.k), x.keep, Locs(x.env', names), Locs(x.env', names));
    } else {
      b2 := SimGuarded(j, x, m1, m2, plan, s.args, vs, Locs(x.env', names));
    }
  }

  lemma {:induction false} CodeAfterPrefix(c: Candidate, s: Stmt, taken: set<string>)
    requires s.Call?
    ensures var plan := SitePlan(c, s.args, taken);
      && plan.prefix <= SiteCode(c, s, taken)
      && SiteCode(c, s, taken) == plan.prefix + SiteCode(c, s, taken)[|plan.prefix|..]
      && SiteNames(c, s.args, taken) == plan.added + SpliceNames(c, s.args, taken)
      && SiteCode(c, s, taken)[|plan.prefix|..] ==
        if c.guards == [] then RewriteStmts(None, c.tail, plan.sub + SiteRenames(c, s.args, taken).0, {})
        else [If(Condition(c.guards, plan.sub), RewriteBlock(None, c.tail, plan.sub), [])]
  {
  }

  lemma {:induction false} MemFacts(j: Job, x: Ctx, m: Mem)
    requires MemOk(j, x, m)
    ensures GlobalsMapped(j, m.b) && forall l :: l in m.b ==> l < |m.st.heap|
  {
  }

  /** Without guards: the tail, spliced into the caller's block. */
  lemma {:induction false} SimSpliced(j: Job, x: Ctx, m1: Mem, m2: Mem, plan: Plan, args: seq<Expr>, vs: seq<Value>,
                                      ren: Sub, locals: seq<string>) returns (b2: Inj)
    requires Good(j) && FuelOk(x) && x.n > 0 && MemOk(j, x, m2) && DynOk(j, x) && x.co == Some(j.c)
    requires j.c.guards == [] && Outside(j.c.f) !! x.scope && |vs| == |args|
    requires Entered(j, x, m1, m2, plan.sub, locals, vs) && PlanKnown(j, x, plan, args)
    requires |locals| == |Declared(j.c.tail)| && ren.Keys <= Elements(Declared(j.c.tail))
    requires forall q :: 0 <= q < |locals| ==>
      var y := Declared(j.c.tail)[q];
      Renamed(y, ren) == locals[q] && locals[q] in x.env' && (y in ren ==> ren[y].ToVar?)
    requires plan.sub.Keys <= Elements(j.c.f.params) && NoCapture(plan.sub + ren, j.c.tail)
    requires StmtsOrdered(j.Before(), j.c, j.c.f.body, HelperEnv(j, |m1.st.heap|), m2.st, x.n - 1)
    ensures Sim(x.fwd, m2, b2, x.keep, {},
                AfterCall(ExecStmts(j.Before(), j.c.f.body, HelperEnv(j, |m1.st.heap|), m2.st, x.n - 1)),
                ExecStmts(j.After(), RewriteStmts(None, j.c.tail, plan.sub + ren, {}), x.env', m2.st', x.k))
    decreases x.n - 1, j.c.tail, 3
  {
    hide StmtsOrdered, Good, Evolves, Related, EnvRel, HelperEnv, Entered, PlanKnown, StmtsOk;
    Facts(j);
    MemFacts(j, x, m2);
    assert j.c.tail == j.c.f.body;
    var s, env := plan.sub + ren, HelperEnv(j, |m1.st.heap|);
    HelperEnvRel(j, x, m1, m2, plan, args, vs, ren, locals, FreeStmts(j.c.f.body));
    var x3 := Ctx(None, s, Elements(j.c.f.params) + Elements(Declared(j.c.tail)), x.fwd, x.n - 1, x.k, env, x.env',
      x.keep);
    forall y | y in s && y in Elements(Declared(j.c.tail)) ensures s[y].ToVar? {
      var q :| 0 <= q < |locals| && Declared(j.c.tail)[q] == y;
      assert y !in plan.sub;
    }
    TailOk(j, x3);
    NoSitesNoNames(j.c.tail, {});
    b2 := SimStmts(j, x3, m2, j.c.tail, {});
    assert Locs(x.env', []) == {};
    NoEscapeStmts(j.Before(), j.c.tail, env, m2.st, x.n - 1, false);
  }

  /** With guards: one positive `if` around the tail. */
  lemma {:induction false} SimGuarded(j: Job, x: Ctx, m1: Mem, m2: Mem, plan: Plan, args: seq<Expr>, vs: seq<Value>,
                                      own: set<nat>) returns (b2: Inj)
    requires Good(j) && FuelOk(x) && x.n > 0 && MemOk(j, x, m2) && DynOk(j, x) && x.co == Some(j.c)
    requires j.c.guards != [] && Outside(j.c.f) !! x.scope && |vs| == |args|
    requires Entered(j, x, m1, m2, plan.sub, [], vs) && PlanKnown(j, x, plan, args) && Evolves(m1, m2, x.keep, own)
    requires plan.sub.Keys <= Elements(j.c.f.params) && NoCaptureBlock(plan.sub, j.c.tail)
    requires StmtsOrdered(j.Before(), j.c, j.c.f.body, HelperEnv(j, |m1.st.heap|), m2.st, x.n - 1)
    requires GuardsOrdered(j.w, j.c.guards, HelperEnv(j, |m1.st.heap|), m2.st)
    ensures Sim(x.fwd, m1, b2, x.keep, own,
                AfterCall(ExecStmts(j.Before(), j.c.f.body, HelperEnv(j, |m1.st.heap|), m2.st, x.n - 1)),
                ExecStmts(j.After(), [If(Condition(j.c.guards, plan.sub), RewriteBlock(None, j.c.tail, plan.sub), [])],
                    x.env', m2.st', x.k))
    decreases x.n - 1, j.c.tail, 5
  {
    hide StmtsOrdered, GuardsOrdered, Good, Evolves, Related, EnvRel, HelperEnv, Entered, PlanKnown, Apart, Eval,
         ExecStmts, ExecBlock, RunGuards, Condition, RewriteBlock, FreeStmts, ArgNames, Declared, GlobalsMapped, DynOk,
         Outside;
    Facts(j);
    MemFacts(j, x, m2);
    GuardNames(j);
    var env, sub := HelperEnv(j, |m1.st.heap|), plan.sub;
    HelperEnvRel(j, x, m1, m2, plan, args, vs, map[], [], ArgNames(j.c.guards));
    assert sub + map[] == sub;
    GuardsSim(j.w, j.c.guards, sub, m2, env, x.env', x.keep);
    var run := RunGuards(j.w, j.c.guards, env, m2.st);
    var run' := RunGuards(j.w, SubArgs(j.c.guards, sub), x.env', m2.st');
    var m3 := Mem(m2.b, run.end, run'.end);
    BodyRunsGuards(j.Before(), j.c.f.body, env, m2.st, x.n - 1);
    GuardsOrderedSim(j.w, j.c.guards, sub, m2, env, x.env', x.keep);
    TailOrdered(j.Before(), j.c, j.c.f.body, env, m2.st, x.n - 1);
    SubstitutedCondition(j.w, j.c, sub, x.env', m2.st');
    IfStep(j.After(), Condition(j.c.guards, sub), RewriteBlock(None, j.c.tail, sub), x.env', m2.st', x.k);
    b2 := m2.b;
    EvolvesTrans(m1, m2, m3, x.keep, own, x.keep, own, x.keep, {});
    if run.out.Norm? && !Truthy(run.out.v) {
      b2 := SimGuardedTail(j, x, m1, m2, m3, plan, args, vs, own);
    }
  }

  lemma {:induction false} SimGuardedTail(j: Job, x: Ctx, m1: Mem, m2: Mem, m3: Mem, plan: Plan, args: seq<Expr>,
    vs: seq<Value>, own: set<nat>) returns (b2: Inj)
    requires Good(j) && FuelOk(x) && x.n > 0 && MemOk(j, x, m2) && DynOk(j, x) && x.co == Some(j.c)
    requires j.c.guards != [] && Outside(j.c.f) !! x.scope && |vs| == |args|
    requires Entered(j, x, m1, m2, plan.sub, [], vs) && PlanKnown(j, x, plan, args) && Evolves(m1, m2, x.keep, own)
    requires plan.sub.Keys <= Elements(j.c.f.params) && NoCaptureBlock(plan.sub, j.c.tail)
    requires Evolves(m2, m3, x.keep, {}) && m3.b == m2.b
    requires StmtsOrdered(j.Before(), j.c, j.c.tail, HelperEnv(j, |m1.st.heap|), m3.st, x.n - 1)
    ensures Sim(x.fwd, m1, b2, x.keep, own,
                AfterCall(ExecStmts(j.Before(), j.c.tail, HelperEnv(j, |m1.st.heap|), m3.st, x.n - 1)),
                ExecBlock(j.After(), RewriteBlock(None, j.c.tail, plan.sub), x.env', m3.st', x.k))
    decreases x.n - 1, j.c.tail, 4
  {
    hide StmtsOrdered, Good, Evolves, Related, EnvRel, HelperEnv, PlanKnown, StmtsOk, Apart, Entered, ExecStmts,
         RewriteStmts, FreeStmts, Declared, GlobalsMapped, Outside, Bind;
    Facts(j);
    MemFacts(j, x, m2);
    BodyNames(j.c.f.body);
    var ds, env, sub := Declared(j.c.tail), HelperEnv(j, |m1.st.heap|), plan.sub;
    HelperEnvRel(j, x, m1, m2, plan, args, vs, map[], [], FreeStmts(j.c.tail) - Elements(ds));
    assert sub + map[] == sub && sub - Elements(ds) == sub;
    BlockDeclares(j.c.tail, sub);
    var env3' := Bind(ds, |m3.st'.heap|, x.env');
    var m4 := EnterGuarded(j, x, m1, m2, m3, sub, vs, own, env3');
    GuardedTailEnv(j, x, m1, m2, m3, m4, sub, vs, env3');
    var x3 := Ctx(None, sub, Elements(j.c.f.params) + Elements(ds), x.fwd, x.n - 1, x.k, env, env3', x.keep);
    TailOk(j, x3);
    NoSitesNoNames(j.c.tail, StmtsNames(j.c.tail));
    assert MemOk(j, x3, m4);
    b2 := SimStmts(j, x3, m4, j.c.tail, StmtsNames(j.c.tail));
    assert Locs(env3', []) == {};
    NoEscapeStmts(j.Before(), j.c.tail, env, m3.st, x.n - 1, false);
    SimAfter(x.fwd, m1, m4, b2, x.keep, {}, ExecStmts(j.Before(), j.c.tail, env, m3.st, x.n - 1),
             ExecStmts(j.After(), RewriteStmts(None, j.c.tail, sub, StmtsNames(j.c.tail)), env3', m4.st', x.k), x.keep,
             own, own);
  }

  /** Substituting parameters declares nothing new. */
  lemma {:induction false} BlockDeclares(tail: seq<Stmt>, sub: Sub)
    requires sub.Keys !! Elements(Declared(tail))
    ensures Declared(RewriteStmts(None, tail, sub, StmtsNames(tail))) == Declared(tail)
  {
    DeclaredRenamed(tail, sub, StmtsNames(tail));
    var ds, ds' := Declared(tail), Declared(RewriteStmts(None, tail, sub, StmtsNames(tail)));
    forall q | 0 <= q < |ds| ensures ds'[q] == ds[q] {
      assert ds[q] in Elements(ds);
    }
  }

  lemma {:induction false} EnterGuarded(j: Job, x: Ctx, m1: Mem, m2: Mem, m3: Mem, sub: Sub, vs: seq<Value>,
    own: set<nat>, env3': Env) returns (m4: Mem)
    requires Entered(j, x, m1, m2, sub, [], vs) && MemOk(j, x, m2)
    requires Evolves(m1, m2, x.keep, own) && Evolves(m2, m3, x.keep, {}) && m3.b == m2.b
    requires env3' == Bind(Declared(j.c.tail), |m3.st'.heap|, x.env')
    ensures var ds, at := Declared(j.c.tail), |m1.st.heap| + |j.c.f.params|;
      && m4 == Mem(m3.b + PickNames(ds, at, env3'), m3.st, m3.st'.(heap := m3.st'.heap + EmptyCells(|ds|)))
      && (forall l :: l in m3.b ==> l !in PickNames(ds, at, env3'))
    ensures Evolves(m1, m4, x.keep, own) && Related(m4) && Apart(m4, x.keep) && GlobalsMapped(j, m4.b)
  {
    hide Evolves, Related, Apart, Entered, PickNames, Bind, Declared, LocOf;
    var ds, at := Declared(j.c.tail), |m1.st.heap| + |j.c.f.params|;
    HelperKeys(j, x, m1, m2, sub, vs);
    BoundAbove(ds, |m3.st'.heap|, x.env');
    BoundApart(ds, |m3.st'.heap|, x.env');
    var pick := PickNames(ds, at, env3');
    RelatedAfter(m2, m3, x.keep);
    PickNamesOk(ds, at, env3', |m3.st'.heap|);
    m4 := LateCells(m1, m2, m3, pick, EmptyCells(|ds|), x.keep, own);
    EvolvedRelated(m1, m4, x.keep, own);
  }

  lemma {:induction false} EvolvedRelated(m: Mem, m1: Mem, keep: set<nat>, own: set<nat>)
    requires Evolves(m, m1, keep, own)
    ensures Related(m1)
  {
  }

  /** The cells of the helper's locals are not matched yet. */
  lemma {:induction false} HelperKeys(j: Job, x: Ctx, m1: Mem, m2: Mem, sub: Sub, vs: seq<Value>)
    requires Entered(j, x, m1, m2, sub, [], vs)
    ensures var at := |m1.st.heap| + |j.c.f.params|;
      && NoDup(Declared(j.c.tail)) && |m2.st.heap| == at + |Declared(j.c.tail)|
      && (forall l :: l in m2.b ==> l < at)
      && (forall l :: at <= l < |m2.st.heap| ==> m2.st.heap[l] == None)
  {
  }
}
