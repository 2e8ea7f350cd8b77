/**
 Runs in which no call of the helper meets an unordered pair in a comparison that
 guard inversion flips.  This is said of the module as it was, along the run.
 */
module InlinerOrder {
  import opened Basics
  import opened Expressions
  import opened GuardText
  import opened GuardInversion
  import opened Programs
  import opened Inliner
  import opened InlinerNames

  ghost predicate StmtOrdered(m: Machine, c: Candidate, s: Stmt, env: Env, st: State, fuel: nat)
    decreases fuel, s, 0
  {
    match s
    case If(e, a, b) =>
      var (o, st1) := Eval(m.w, e, env, st);
      o.Norm? ==> BlockOrdered(m, c, if Truthy(o.v) then a else b, env, st1, fuel)
    case While(e, body) =>
      fuel > 0 ==>
        var (o, st1) := Eval(m.w, e, env, st);
        o.Norm? && Truthy(o.v) ==>
          && BlockOrdered(m, c, body, env, st1, fuel)
          && var (k, st2) := ExecBlock(m, body, env, st1, fuel);
             (k == Normal || k == Jumped(Continue) ==> StmtOrdered(m, c, s, env, st2, fuel - 1))
    case Call(g, args) =>
      fuel > 0 && g !in env && FindFun(m.p.funs, g).Some? ==>
        var (vs, st1) := EvalArgs(m.w, args, env, st);
        vs.ArgValues? ==> InvokeOrdered(m, c, FindFun(m.p.funs, g).value, vs.vs, st1, fuel - 1)
    case _ => true
  }

  ghost predicate StmtsOrdered(m: Machine, c: Candidate, ss: seq<Stmt>, env: Env, st: State, fuel: nat)
    decreases fuel, ss, 0
  {
    ss != [] ==>
      && StmtOrdered(m, c, ss[0], env, st, fuel)
      && var (k, st1) := ExecStmt(m, ss[0], env, st, fuel);
         (k == Normal ==> StmtsOrdered(m, c, ss[1..], env, st1, fuel))
  }

  ghost predicate BlockOrdered(m: Machine, c: Candidate, ss: seq<Stmt>, env: Env, st: State, fuel: nat)
    decreases fuel, ss, 1
  {
    var ds := Declared(ss);
    StmtsOrdered(m, c, ss, Bind(ds, |st.heap|, env), st.(heap := st.heap + EmptyCells(|ds|)), fuel)
  }

  /** A call; the helper's guards run where its body begins. */
  ghost predicate InvokeOrdered(m: Machine, c: Candidate, f: Fun, vs: seq<Value>, st: State, fuel: nat)
    decreases fuel, f.body, 2
  {
    var env, st1 := Bind(f.params, |st.heap|, GlobalEnv(m.p)), st.(heap := st.heap + ParamCells(|f.params|, vs));
    var ds := Declared(f.body);
    && (f == c.f ==> GuardsOrdered(m.w, c.guards, Bind(ds, |st1.heap|, env), st1.(heap := st1.heap + EmptyCells(|ds|))))
    && BlockOrdered(m, c, f.body, env, st1, fuel)
  }

  /** However long an exported function runs, from these arguments, this store and this history. */
  ghost predicate RunOrdered(p: Program, w: World, c: Candidate, entry: string, vs: seq<Value>, st: State) {
    FindFun(p.funs, entry).Some? ==>
      forall fuel: nat :: InvokeOrdered(Machine(p, w), c, FindFun(p.funs, entry).value, vs, st, fuel)
  }

  // ----- single steps -----

  lemma {:induction false} HeadOrdered(m: Machine, c: Candidate, ss: seq<Stmt>, env: Env, st: State, fuel: nat)
    requires ss != []
    ensures StmtsOrdered(m, c, ss, env, st, fuel) <==>
      && StmtOrdered(m, c, ss[0], env, st, fuel)
      && (ExecStmt(m, ss[0], env, st, fuel).0 == Normal
          ==> StmtsOrdered(m, c, ss[1..], env, ExecStmt(m, ss[0], env, st, fuel).1, fuel))
  {
    hide StmtOrdered, ExecStmt;
  }

  /** A body runs its guards first; where none fires, its tail runs in order too. */
  lemma {:induction false} TailOrdered(m: Machine, c: Candidate, body: seq<Stmt>, env: Env, st: State, fuel: nat)
    requires StmtsOrdered(m, c, body, env, st, fuel)
    ensures var guards := LeadingGuards(body);
      var run := RunGuards(m.w, guards, env, st);
      run.out.Norm? && !Truthy(run.out.v) ==> StmtsOrdered(m, c, body[|guards|..], env, run.end, fuel)
    decreases |body|
  {
    hide StmtsOrdered, StmtOrdered, ExecStmt, RunGuards;
    var guards := LeadingGuards(body);
    if guards == [] {
      assert body[0..] == body;
      NoGuardsRun(m.w, env, st);
    } else {
      RunGuardsFront(m.w, guards, env, st);
      assert guards[1..] == LeadingGuards(body[1..]);
      assert body[1..][|guards| - 1..] == body[|guards|..];
      HeadOrdered(m, c, body, env, st, fuel);
      var (o, st1) := Eval(m.w, body[0].c, env, st);
      if o.Norm? && !Truthy(o.v) {
        GuardPasses(m, body[0], env, st, fuel);
        TailOrdered(m, c, body[1..], env, st1, fuel);
      }
    }
  }

  lemma {:induction false} NoGuardsRun(w: World, env: Env, st: State)
    ensures RunGuards(w, [], env, st) == Run(Norm(Bool(false)), st, [])
  {
  }

  lemma {:induction false} GuardPasses(m: Machine, s: Stmt, env: Env, st: State, fuel: nat)
    requires IsGuard(s) && Eval(m.w, s.c, env, st).0.Norm? && !Truthy(Eval(m.w, s.c, env, st).0.v)
    ensures ExecStmt(m, s, env, st, fuel) == (Normal, Eval(m.w, s.c, env, st).1)
  {
    hide ExecBlock;
    GuardBlocks(m, env, Eval(m.w, s.c, env, st).1, fuel);
  }

  // ----- helpers without ordering guards -----

  lemma {:induction false} FreeStmtOrdered(m: Machine, c: Candidate, s: Stmt, env: Env, st: State, fuel: nat)
    requires FlipFree(c)
    ensures StmtOrdered(m, c, s, env, st, fuel)
    decreases fuel, s, 0
  {
    hide FlipFree, BlockOrdered, InvokeOrdered, ExecBlock, Eval, EvalArgs, FindFun;
    match s
    case If(e, a, b) =>
      var (o, st1) := Eval(m.w, e, env, st);
      if o.Norm? {
        if Truthy(o.v) {
          FreeBlockOrdered(m, c, a, env, st1, fuel);
        } else {
          FreeBlockOrdered(m, c, b, env, st1, fuel);
        }
      }
    case While(e, body) =>
      var (o, st1) := Eval(m.w, e, env, st);
      if fuel > 0 && o.Norm? && Truthy(o.v) {
        FreeBlockOrdered(m, c, body, env, st1, fuel);
        FreeStmtOrdered(m, c, s, env, ExecBlock(m, body, env, st1, fuel).1, fuel - 1);
      }
    case Call(g, args) =>
      var (vs, st1) := EvalArgs(m.w, args, env, st);
      if fuel > 0 && FindFun(m.p.funs, g).Some? && vs.ArgValues? {
        FreeInvokeOrdered(m, c, FindFun(m.p.funs, g).value, vs.vs, st1, fuel - 1);
      }
    case ExprS(_) =>
    case Decl(_, _) =>
    case Jump(_) =>
  }

  lemma {:induction false} FreeStmtsOrdered(m: Machine, c: Candidate, ss: seq<Stmt>, env: Env, st: State, fuel: nat)
    requires FlipFree(c)
    ensures StmtsOrdered(m, c, ss, env, st, fuel)
    decreases fuel, ss, 0
  {
    hide FlipFree, StmtOrdered, ExecStmt;
    if ss != [] {
      FreeStmtOrdered(m, c, ss[0], env, st, fuel);
      FreeStmtsOrdered(m, c, ss[1..], env, ExecStmt(m, ss[0], env, st, fuel).1, fuel);
    }
  }

  lemma {:induction false} FreeBlockOrdered(m: Machine, c: Candidate, ss: seq<Stmt>, env: Env, st: State, fuel: nat)
    requires FlipFree(c)
    ensures BlockOrdered(m, c, ss, env, st, fuel)
    decreases fuel, ss, 1
  {
    hide FlipFree, StmtsOrdered;
    var ds := Declared(ss);
    FreeStmtsOrdered(m, c, ss, Bind(ds, |st.heap|, env), st.(heap := st.heap + EmptyCells(|ds|)), fuel);
  }

  lemma {:induction false} FreeInvokeOrdered(m: Machine, c: Candidate, f: Fun, vs: seq<Value>, st: State, fuel: nat)
    requires FlipFree(c)
    ensures InvokeOrdered(m, c, f, vs, st, fuel)
    decreases fuel, f.body, 2
  {
    hide BlockOrdered, GuardsOrdered, FlipsNoOrdering;
    var env, st1 := Bind(f.params, |st.heap|, GlobalEnv(m.p)), st.(heap := st.heap + ParamCells(|f.params|, vs));
    var ds := Declared(f.body);
    SafeGuardsOrdered(m.w, c.guards, Bind(ds, |st1.heap|, env), st1.(heap := st1.heap + EmptyCells(|ds|)));
    FreeBlockOrdered(m, c, f.body, env, st1, fuel);
  }

  lemma {:induction false} FreeRunOrdered(p: Program, w: World, c: Candidate, entry: string, vs: seq<Value>, st: State)
    requires FlipFree(c)
    ensures RunOrdered(p, w, c, entry, vs, st)
  {
    hide FlipFree, InvokeOrdered;
    if FindFun(p.funs, entry).Some? {
      forall fuel: nat ensures InvokeOrdered(Machine(p, w), c, FindFun(p.funs, entry).value, vs, st, fuel) {
        FreeInvokeOrdered(Machine(p, w), c, FindFun(p.funs, entry).value, vs, st, fuel);
      }
    }
  }
}
