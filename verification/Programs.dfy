/**
 Statements, functions and modules, with a meaning that follows JavaScript:
 blocks hoist their declarations (a cell exists from the start of its block, and
 reading it before its declaration has run is an error), calls evaluate their
 arguments from left to right, and a call through a name that a local variable
 shadows is an error.

 Execution takes a step budget; `Timeout` says that it ran out.
 */
module Programs {
  import opened Basics
  import opened Expressions
  import opened GuardText

  datatype JumpKind = Return | Break | Continue

  datatype Stmt =
    | ExprS(e: Expr)
    | Decl(x: string, e: Expr)
    | If(c: Expr, thn: seq<Stmt>, els: seq<Stmt>)
    | While(c: Expr, body: seq<Stmt>)
    | Call(g: string, args: seq<Expr>)
    | Jump(kind: JumpKind)

  datatype Fun = Fun(name: string, params: seq<string>, body: seq<Stmt>, exported: bool)
  datatype Program = Program(globals: seq<string>, funs: seq<Fun>)

  // ----- names -----

  function Elements<T>(xs: seq<T>): set<T> { set x | x in xs }

  ghost predicate NoDup<T>(xs: seq<T>) {
    forall i, j :: 0 <= i < j < |xs| ==> xs[i] != xs[j]
  }

  /** The names a statement list declares directly, in order. */
  function Declared(ss: seq<Stmt>): seq<string> {
    if ss == [] then []
    else (if ss[0].Decl? then [ss[0].x] else []) + Declared(ss[1..])
  }

  function ArgNames(es: seq<Expr>): set<string> {
    if es == [] then {} else Names(es[0]) + ArgNames(es[1..])
  }

  /** Every identifier written in a statement, nested blocks included. */
  function StmtNames(s: Stmt): set<string> {
    match s
    case ExprS(e) => Names(e)
    case Decl(x, e) => {x} + Names(e)
    case If(c, a, b) => Names(c) + StmtsNames(a) + StmtsNames(b)
    case While(c, b) => Names(c) + StmtsNames(b)
    case Call(g, args) => {g} + ArgNames(args)
    case Jump(_) => {}
  }

  function StmtsNames(ss: seq<Stmt>): set<string> {
    if ss == [] then {} else StmtNames(ss[0]) + StmtsNames(ss[1..])
  }

  /** The names that mean something from outside: a nested block hides its own declarations. */
  function FreeStmt(s: Stmt): set<string> {
    match s
    case ExprS(e) => Names(e)
    case Decl(x, e) => {x} + Names(e)
    case If(c, a, b) => Names(c) + FreeBlock(a) + FreeBlock(b)
    case While(c, b) => Names(c) + FreeBlock(b)
    case Call(g, args) => {g} + ArgNames(args)
    case Jump(_) => {}
  }

  function FreeStmts(ss: seq<Stmt>): set<string>
    decreases ss, 0
  {
    if ss == [] then {} else FreeStmt(ss[0]) + FreeStmts(ss[1..])
  }

  function FreeBlock(ss: seq<Stmt>): set<string>
    decreases ss, 1
  {
    FreeStmts(ss) - Elements(Declared(ss))
  }

  /** Names declared anywhere inside, at any depth. */
  function LocalsStmt(s: Stmt): set<string> {
    match s
    case Decl(x, _) => {x}
    case If(_, a, b) => LocalsStmts(a) + LocalsStmts(b)
    case While(_, b) => LocalsStmts(b)
    case _ => {}
  }

  function LocalsStmts(ss: seq<Stmt>): set<string> {
    if ss == [] then {} else LocalsStmt(ss[0]) + LocalsStmts(ss[1..])
  }

  /** Variables an expression assigns. */
  function Writes(e: Expr): set<string> {
    match e
    case Lit(_, _) => {}
    case Var(_, _) => {}
    case Op(_, _, l, r) => Writes(l) + Writes(r)
    case Paren(e1) => Writes(e1)
    case Not(e1) => Writes(e1)
    case Compare(_, l, r) => Writes(l) + Writes(r)
    case And(l, r) => Writes(l) + Writes(r)
    case Or(l, r) => Writes(l) + Writes(r)
    case Assign(x, e1) => {x} + Writes(e1)
  }

  function ArgWrites(es: seq<Expr>): set<string> {
    if es == [] then {} else Writes(es[0]) + ArgWrites(es[1..])
  }

  function WritesStmt(s: Stmt): set<string> {
    match s
    case ExprS(e) => Writes(e)
    case Decl(_, e) => Writes(e)
    case If(c, a, b) => Writes(c) + WritesBlock(a) + WritesBlock(b)
    case While(c, b) => Writes(c) + WritesBlock(b)
    case Call(_, args) => ArgWrites(args)
    case Jump(_) => {}
  }

  function WritesStmts(ss: seq<Stmt>): set<string>
    decreases ss, 0
  {
    if ss == [] then {} else WritesStmt(ss[0]) + WritesStmts(ss[1..])
  }

  function WritesBlock(ss: seq<Stmt>): set<string>
    decreases ss, 1
  {
    WritesStmts(ss) - Elements(Declared(ss))
  }

  // ----- execution -----

  datatype Completion = Normal | Jumped(kind: JumpKind) | Throws(error: Value) | Timeout

  type Result = (Completion, State)

  datatype Machine = Machine(p: Program, w: World)

  const TYPE_ERROR := Str("TypeError")

  function Bind(xs: seq<string>, base: nat, env: Env): Env {
    if xs == [] then env else Bind(xs[1..], base + 1, env[xs[0] := base])
  }

  function GlobalEnv(p: Program): Env { Bind(p.globals, 0, map[]) }

  function FindFun(funs: seq<Fun>, g: string): Option<Fun> {
    if funs == [] then None
    else if funs[0].name == g then Some(funs[0])
    else FindFun(funs[1..], g)
  }

  datatype ArgsOutcome = ArgValues(vs: seq<Value>) | ArgThrown(error: Value)

  function EvalArgs(w: World, es: seq<Expr>, env: Env, st: State): (r: (ArgsOutcome, State))
    ensures r.0.ArgValues? ==> |r.0.vs| == |es|
  {
    if es == [] then (ArgValues([]), st)
    else
      var (v, st1) := Eval(w, es[0], env, st);
      if v.Thrown? then (ArgThrown(v.error), st1)
      else
        var (rest, st2) := EvalArgs(w, es[1..], env, st1);
        if rest.ArgThrown? then (rest, st2) else (ArgValues([v.v] + rest.vs), st2)
  }

  /** The cells of the parameters: missing arguments are undefined, extra ones dropped. */
  function ParamCells(k: nat, vs: seq<Value>): (r: seq<Option<Value>>)
    ensures |r| == k
  {
    seq(k, i requires 0 <= i => Some(if i < |vs| then vs[i] else Undefined))
  }

  function EmptyCells(k: nat): (r: seq<Option<Value>>)
    ensures |r| == k
  {
    seq(k, i => None)
  }

  function AfterEval(o: Outcome, st: State): Result {
    if o.Thrown? then (Throws(o.error), st) else (Normal, st)
  }

  function Init(x: string, v: Value, env: Env, st: State): Result {
    if x in env && env[x] < |st.heap|
    then (Normal, st.(heap := st.heap[env[x] := Some(v)]))
    else (Throws(REFERENCE_ERROR), st)
  }

  /** A call has returned, whichever way it left its body. */
  function AfterCall(r: Result): Result {
    if r.0.Jumped? then (Normal, r.1) else r
  }

  function ExecStmt(m: Machine, s: Stmt, env: Env, st: State, fuel: nat): Result
    decreases fuel, s, 0
  {
    match s
    case ExprS(e) => var (o, st1) := Eval(m.w, e, env, st); AfterEval(o, st1)
    case Decl(x, e) =>
      var (o, st1) := Eval(m.w, e, env, st);
      if o.Thrown? then (Throws(o.error), st1) else Init(x, o.v, env, st1)
    case If(c, a, b) =>
      var (o, st1) := Eval(m.w, c, env, st);
      if o.Thrown? then (Throws(o.error), st1)
      else if Truthy(o.v) then ExecBlock(m, a, env, st1, fuel)
      else ExecBlock(m, b, env, st1, fuel)
    case While(c, body) =>
      if fuel == 0 then (Timeout, st) else
      var (o, st1) := Eval(m.w, c, env, st);
      if o.Thrown? then (Throws(o.error), st1)
      else if !Truthy(o.v) then (Normal, st1)
      else
        var (k, st2) := ExecBlock(m, body, env, st1, fuel);
        if k == Normal || k == Jumped(Continue) then ExecStmt(m, s, env, st2, fuel - 1)
        else if k == Jumped(Break) then (Normal, st2)
        else (k, st2)
    case Call(g, args) =>
      if fuel == 0 then (Timeout, st)
      else if g !in env && FindFun(m.p.funs, g).None? then (Throws(REFERENCE_ERROR), st)
      else
        var (vs, st1) := EvalArgs(m.w, args, env, st);
        if vs.ArgThrown? then (Throws(vs.error), st1)
        else if g in env then (Throws(TYPE_ERROR), st1)
        else AfterCall(Invoke(m, FindFun(m.p.funs, g).value, vs.vs, st1, fuel - 1))
    case Jump(kind) => (Jumped(kind), st)
  }

  function ExecStmts(m: Machine, ss: seq<Stmt>, env: Env, st: State, fuel: nat): Result
    decreases fuel, ss, 0
  {
    if ss == [] then (Normal, st)
    else
      var (k, st1) := ExecStmt(m, ss[0], env, st, fuel);
      if k == Normal then ExecStmts(m, ss[1..], env, st1, fuel) else (k, st1)
  }

  function ExecBlock(m: Machine, ss: seq<Stmt>, env: Env, st: State, fuel: nat): Result
    decreases fuel, ss, 1
  {
    var ds := Declared(ss);
    ExecStmts(m, ss, Bind(ds, |st.heap|, env), st.(heap := st.heap + EmptyCells(|ds|)), fuel)
  }

  function Invoke(m: Machine, f: Fun, vs: seq<Value>, st: State, fuel: nat): Result
    decreases fuel, f.body, 2
  {
    ExecBlock(m, f.body, Bind(f.params, |st.heap|, GlobalEnv(m.p)),
              st.(heap := st.heap + ParamCells(|f.params|, vs)), fuel)
  }

  // ----- what the outside sees of a run -----

  /** Running an exported function on a store that holds the globals. */
  datatype Visible = Visible(end: Completion, globals: seq<Option<Value>>, hist: seq<Event>)

  ghost predicate Yields(p: Program, w: World, entry: string, vs: seq<Value>, st: State, v: Visible) {
    && |st.heap| == |p.globals|
    && FindFun(p.funs, entry).Some?
    && exists fuel: nat :: YieldsWithin(p, w, entry, vs, st, v, fuel)
  }

  ghost predicate YieldsWithin(p: Program, w: World, entry: string, vs: seq<Value>, st: State, v: Visible, fuel: nat)
    requires |st.heap| == |p.globals| && FindFun(p.funs, entry).Some?
  {
    var r := AfterCall(Invoke(Machine(p, w), FindFun(p.funs, entry).value, vs, st, fuel));
    && r.0 != Timeout
    && v.end == r.0 && v.hist == r.1.hist
    && |r.1.heap| >= |p.globals| && v.globals == r.1.heap[..|p.globals|]
  }

  // ----- well-formed source -----

  ghost predicate AllShaped(es: seq<Expr>) { forall e :: e in es ==> Shaped(e) }

  /** What the language's own rules ask of a block: no name declared twice in it,
      callees name functions rather than variables, and trees a parser yields. */
  ghost predicate WellFormedStmt(s: Stmt, scope: set<string>) {
    match s
    case ExprS(e) => Shaped(e)
    case Decl(_, e) => Shaped(e)
    case If(c, a, b) => Shaped(c) && WellFormedBlock(a, scope) && WellFormedBlock(b, scope)
    case While(c, b) => Shaped(c) && WellFormedBlock(b, scope)
    case Call(g, args) => g !in scope && AllShaped(args)
    case Jump(_) => true
  }

  ghost predicate WellFormedStmts(ss: seq<Stmt>, scope: set<string>)
    decreases ss, 0
  {
    ss == [] || (WellFormedStmt(ss[0], scope) && WellFormedStmts(ss[1..], scope))
  }

  ghost predicate WellFormedBlock(ss: seq<Stmt>, scope: set<string>)
    decreases ss, 1
  {
    NoDup(Declared(ss)) && WellFormedStmts(ss, scope + Elements(Declared(ss)))
  }

  ghost predicate WellFormedFun(f: Fun) {
    && NoDup(f.params)
    && Elements(f.params) !! Elements(Declared(f.body))
    && WellFormedBlock(f.body, Elements(f.params))
  }

  ghost predicate WellFormed(p: Program) {
    && NoDup(p.globals)
    && (forall i, j :: 0 <= i < j < |p.funs| ==> p.funs[i].name != p.funs[j].name)
    && (forall f :: f in p.funs ==> f.name !in p.globals && WellFormedFun(f))
  }
}
