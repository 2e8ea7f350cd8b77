/**
 Running a module and its inlined form side by side: every statement of the one
 is matched by its rewritten form in the other, with the same completion, the
 same effects and related stores.

 One simulation serves both directions.  Forwards the inlined program gets at
 least the original's step budget; backwards the original gets twice the inlined
 program's, because each call that inlining removed cost it one step more.
 */
module InlinerSim {
  import opened Basics
  import opened Expressions
  import opened GuardText
  import opened GuardInversion
  import opened Programs
  import opened Inliner
  import opened InlinerMemory
  import opened InlinerNames

  datatype Job = Job(p: Program, w: World, c: Candidate) {
    function Before(): Machine { Machine(p, w) }
    function After(): Machine { Machine(InlineInto(p, c), w) }
  }

  ghost predicate Good(j: Job) {
    && WellFormed(j.p)
    && j.c.f in j.p.funs
    && (exists max: nat :: Analyze(j.p, j.c.f, max) == Some(j.c))
    && Hygienic(j.p, j.c)
  }

  /** The setting of one pair of runs: the rewriting in force, the names in scope,
      the budgets, the two environments, and cells to be left alone. */
  datatype Ctx = Ctx(co: Option<Candidate>, s: Sub, scope: set<string>, fwd: bool, n: nat, k: nat,
                     env: Env, env': Env, keep: set<nat>)

  ghost predicate FuelOk(x: Ctx) {
    if x.fwd then x.k >= x.n else x.n >= 2 * x.k + Rank(x.co)
  }

  /** Helper code is substituted and holds no call site; other code is not
      substituted and its call sites are the candidate's. */
  ghost predicate SubOk(j: Job, x: Ctx, writes: set<string>) {
    && x.s.Keys <= x.scope
    && WritesRenamed(x.s, writes)
    && (x.co.Some? ==> x.co.value == j.c && x.s == map[])
  }

  ghost predicate StmtOk(j: Job, x: Ctx, s: Stmt) {
    && WellFormedStmt(s, x.scope)
    && SubOk(j, x, WritesStmt(s)) && NoCaptureStmt(x.s, s)
    && (x.co.None? ==> CallsNoneStmt(s, j.c.f.name))
    && (x.co.Some? ==> SitesOkStmt(j.c, s, x.scope) && CleanBelowStmt(j.c, s, x.scope))
  }

  ghost predicate StmtsOk(j: Job, x: Ctx, ss: seq<Stmt>) {
    && WellFormedStmts(ss, x.scope)
    && SubOk(j, x, WritesStmts(ss)) && NoCapture(x.s, ss)
    && (x.co.None? ==> CallsNone(ss, j.c.f.name))
    && (x.co.Some? ==> SitesOk(j.c, ss, x.scope) && CleanBelow(j.c, ss, x.scope))
  }

  ghost predicate BlockOk(j: Job, x: Ctx, ss: seq<Stmt>) {
    && WellFormedBlock(ss, x.scope)
    && SubOk(j, x, WritesBlock(ss)) && NoCaptureBlock(x.s, ss)
    && (x.co.None? ==> CallsNone(ss, j.c.f.name))
    && (x.co.Some? ==> SitesOkBlock(j.c, ss, x.scope) && CleanBlock(j.c, ss, x.scope))
  }

  /** What the environments may bind, where the names the candidate takes from outside are concerned. */
  ghost predicate DynOk(j: Job, x: Ctx) {
    var g := GlobalEnv(j.p);
    x.co.Some? ==>
      && x.env.Keys <= g.Keys + x.scope
      && (forall y :: y in x.env' && y in Outside(j.c.f) ==> y in g || y in x.scope)
      && (forall y :: y in g && y in Outside(j.c.f) && y !in x.scope ==> y in x.env' && x.env'[y] == g[y])
  }

  ghost predicate GlobalsMapped(j: Job, b: Inj) {
    var g := GlobalEnv(j.p);
    forall y :: y in g ==> g[y] in b && b[g[y]] == g[y]
  }

  ghost predicate MemOk(j: Job, x: Ctx, m: Mem) {
    Related(m) && Apart(m, x.keep) && GlobalsMapped(j, m.b)
  }

  ghost predicate Dead(fwd: bool, r: Result, r': Result) {
    if fwd then r.0.Timeout? else r'.0.Timeout?
  }

  ghost predicate Sim(fwd: bool, m: Mem, b2: Inj, keep: set<nat>, own: set<nat>, r: Result, r': Result) {
    Dead(fwd, r, r') || (r.0 == r'.0 && Evolves(m, Mem(b2, r.1, r'.1), keep, own))
  }

  lemma {:induction false} SimAfter(fwd: bool, m: Mem, m1: Mem, b2: Inj, keep: set<nat>, own: set<nat>, r: Result,
    r': Result, keep1: set<nat>, own1: set<nat>, total: set<nat>)
    requires Evolves(m, m1, keep1, own1) && Sim(fwd, m1, b2, keep, own, r, r')
    requires keep <= keep1 && own <= total && own1 <= total
    ensures Sim(fwd, m, b2, keep, total, r, r')
  {
    if !Dead(fwd, r, r') {
      EvolvesTrans(m, m1, Mem(b2, r.1, r'.1), keep, total, keep1, own1, keep, own);
    }
  }

  lemma {:induction false} MemStays(j: Job, x: Ctx, m: Mem, m1: Mem, keep1: set<nat>, own: set<nat>)
    requires MemOk(j, x, m) && Evolves(m, m1, keep1, own) && x.keep !! own
    ensures MemOk(j, x, m1)
  {
    ApartStays(m, m1, x.keep, keep1, own);
  }

  // ----- cells set aside for new names -----

  ghost predicate CellFree(env': Env, m: Mem, keep: set<nat>, y: string) {
    && y in env' && env'[y] < |m.st'.heap| && m.st'.heap[env'[y]] == None
    && env'[y] !in keep && (forall l :: l in m.b ==> m.b[l] != env'[y])
  }

  ghost predicate Cells(env': Env, names: seq<string>, m: Mem, keep: set<nat>) {
    && (forall y :: y in names ==> CellFree(env', m, keep, y))
    && (forall i, j :: 0 <= i < j < |names| && names[i] in env' && names[j] in env' ==>
          env'[names[i]] != env'[names[j]])
  }

  function Locs(env': Env, names: seq<string>): set<nat> {
    set y | y in names && y in env' :: env'[y]
  }

  /** Setting aside two groups of names: a step that leaves the second group's cells
      alone leaves them free. */
  lemma {:induction false} CellsSplit(env': Env, a: seq<string>, b: seq<string>, m: Mem, keep: set<nat>)
    requires Cells(env', a + b, m, keep)
    ensures Cells(env', a, m, keep + Locs(env', b))
    ensures Cells(env', b, m, keep)
    ensures Locs(env', a + b) == Locs(env', a) + Locs(env', b)
    ensures Locs(env', a) !! keep + Locs(env', b)
    ensures forall y :: y in b ==> y in env' && env'[y] < |m.st'.heap|
    ensures Apart(m, keep) ==> Apart(m, keep + Locs(env', b))
  {
    forall y | y in a ensures CellFree(env', m, keep + Locs(env', b), y) {
      assert y in a + b;
      forall z | z in b ensures z in env' && env'[z] != env'[y] {
        var i :| 0 <= i < |a| && a[i] == y;
        var q :| 0 <= q < |b| && b[q] == z;
        assert z in a + b;
        assert (a + b)[i] == y && (a + b)[|a| + q] == z;
      }
    }
    forall i, q | 0 <= i < q < |a| && a[i] in env' && a[q] in env' ensures env'[a[i]] != env'[a[q]] {
      assert (a + b)[i] == a[i] && (a + b)[q] == a[q];
    }
    forall i, q | 0 <= i < q < |b| && b[i] in env' && b[q] in env' ensures env'[b[i]] != env'[b[q]] {
      assert (a + b)[|a| + i] == b[i] && (a + b)[|a| + q] == b[q];
    }
    forall y | y in b ensures CellFree(env', m, keep, y) {
      assert y in a + b;
    }
    assert forall y :: y in a ==> y in a + b;
  }

  lemma {:induction false} CellsStay(env': Env, names: seq<string>, m: Mem, m1: Mem, keep: set<nat>, keep1: set<nat>,
    own: set<nat>)
    requires Cells(env', names, m, keep) && Evolves(m, m1, keep1, own)
    requires Locs(env', names) <= keep1 && Locs(env', names) !! own
    ensures Cells(env', names, m1, keep)
  {
    forall y | y in names ensures CellFree(env', m1, keep, y) {
      assert CellFree(env', m, keep, y);
      assert env'[y] in Locs(env', names);
    }
  }

  // ----- single statements -----

  /** Expressions leave the setting as it is. */
  lemma {:induction false} EvalStep(j: Job, x: Ctx, m: Mem, e: Expr) returns (m1: Mem)
    requires MemOk(j, x, m) && EnvRel(x.s, m, x.env, x.env', Names(e)) && WritesRenamed(x.s, Writes(e))
    ensures var r, r' := Eval(j.w, e, x.env, m.st), Eval(j.w, SubE(e, x.s), x.env', m.st');
      r.0 == r'.0 && m1 == Mem(m.b, r.1, r'.1)
    ensures Evolves(m, m1, x.keep, {}) && MemOk(j, x, m1)
  {
    EvalSim(j.w, e, x.s, m, x.env, x.env', x.keep);
    m1 := Mem(m.b, Eval(j.w, e, x.env, m.st).1, Eval(j.w, SubE(e, x.s), x.env', m.st').1);
    MemStays(j, x, m, m1, x.keep, {});
  }

  lemma {:induction false} InitSim(j: Job, x: Ctx, m: Mem, y: string, v: Value)
    requires MemOk(j, x, m) && NameRel(x.s, m, x.env, x.env', y) && WritesRenamed(x.s, {y})
    ensures var r, r' := Init(y, v, x.env, m.st), Init(Renamed(y, x.s), v, x.env', m.st');
      r.0 == r'.0 && Evolves(m, Mem(m.b, r.1, r'.1), x.keep, {})
  {
    EvolvesRefl(m, x.keep, {});
    if y in x.env {
      WriteSim(m, x.env[y], v, x.keep);
    }
  }

  lemma {:induction false} DeclSim(j: Job, x: Ctx, m: Mem, y: string, e: Expr)
    requires MemOk(j, x, m) && StmtOk(j, x, Decl(y, e)) && WritesRenamed(x.s, {y})
    requires EnvRel(x.s, m, x.env, x.env', FreeStmt(Decl(y, e)))
    ensures Sim(x.fwd, m, m.b, x.keep, {}, ExecStmt(j.Before(), Decl(y, e), x.env, m.st, x.n),
                ExecStmt(j.After(), RewriteStmt(x.co, Decl(y, e), x.s), x.env', m.st', x.k))
  {
    var m1 := EvalStep(j, x, m, e);
    var o := Eval(j.w, e, x.env, m.st).0;
    if o.Norm? {
      EnvRelEvolves(x.s, m, m1, x.env, x.env', {y}, x.keep, {});
      assert NameRel(x.s, m1, x.env, x.env', y);
      InitSim(j, x, m1, y, o.v);
      var r, r' := Init(y, o.v, x.env, m1.st), Init(Renamed(y, x.s), o.v, x.env', m1.st');
      EvolvesTrans(m, m1, Mem(m.b, r.1, r'.1), x.keep, {}, x.keep, {}, x.keep, {});
    }
  }

  // ----- entering blocks and functions -----

  /** Both programs allocate cells; `pick` says which of the original's stand for
      which of the inlined program's, new ones or ones set aside in `own`. */
  lemma {:induction false} Extend(m: Mem, cs: seq<Option<Value>>, cs': seq<Option<Value>>, pick: Inj, keep: set<nat>,
    own: set<nat>)
    returns (m1: Mem)
    requires Related(m) && Apart(m, keep) && keep !! own
    requires forall l :: l in pick ==> |m.st.heap| <= l < |m.st.heap| + |cs|
    requires forall l :: l in pick ==> pick[l] < |m.st'.heap| + |cs'|
    requires forall l :: l in pick ==> pick[l] >= |m.st'.heap| || pick[l] in own
    requires forall l, q :: l in pick && q in m.b ==> m.b[q] != pick[l]
    requires forall l, q :: l in pick && q in pick && pick[l] == pick[q] ==> l == q
    requires forall l :: l in pick ==> cs[l - |m.st.heap|] == (m.st'.heap + cs')[pick[l]]
    ensures m1 == Mem(m.b + pick, m.st.(heap := m.st.heap + cs), m.st'.(heap := m.st'.heap + cs'))
    ensures Evolves(m, m1, keep, own) && Apart(m1, keep)
  {
    var b1, h, h' := m.b + pick, m.st.heap + cs, m.st'.heap + cs';
    m1 := Mem(b1, m.st.(heap := h), m.st'.(heap := h'));
    forall l | l in b1 ensures l < |h| && b1[l] < |h'| && h[l] == h'[b1[l]] && b1[l] !in keep {
      if l in pick {
        assert b1[l] == pick[l] && h[l] == cs[l - |m.st.heap|];
      } else {
        assert l in m.b && b1[l] == m.b[l];
      }
    }
    forall l, q | l in b1 && q in b1 && b1[l] == b1[q] ensures l == q {
      PickedApart(m.b, pick, l, q);
    }
    assert forall l :: l in m.b ==> l !in pick;
  }

  lemma {:induction false} PickedApart(b: Inj, pick: Inj, l: nat, q: nat)
    requires l in b + pick && q in b + pick && (b + pick)[l] == (b + pick)[q]
    requires forall i, k :: i in pick && k in b ==> b[k] != pick[i]
    requires forall i, k :: i in pick && k in pick && pick[i] == pick[k] ==> i == k
    requires forall i, k :: i in b && k in b && b[i] == b[k] ==> i == k
    ensures l == q
  {
  }

  function CellRange(base: nat, n: nat): (r: set<nat>)
    ensures forall l :: l in r <==> base <= l < base + n
    decreases n
  {
    if n == 0 then {} else {base} + CellRange(base + 1, n - 1)
  }

  function LocOf(env: Env, y: string): nat { if y in env then env[y] else 0 }

  /** A block of declarations: the original's are matched by name. */
  function PickNames(ds: seq<string>, base: nat, env': Env): Inj {
    map l | l in CellRange(base, |ds|) :: LocOf(env', ds[l - base])
  }

  lemma {:induction false} EnterBlock(j: Job, x: Ctx, m: Mem, ss: seq<Stmt>) returns (x1: Ctx, m1: Mem)
    requires Good(j) && BlockOk(j, x, ss) && MemOk(j, x, m) && DynOk(j, x) && CandidateNames(j.c)
    requires EnvRel(x.s, m, x.env, x.env', FreeBlock(ss))
    ensures var ds, ds' := Declared(ss), Declared(RewriteBlock(x.co, ss, x.s));
      && x1 == x.(s := x.s - Elements(ds), scope := x.scope + Elements(ds),
                  env := Bind(ds, |m.st.heap|, x.env), env' := Bind(ds', |m.st'.heap|, x.env'))
      && m1.st == m.st.(heap := m.st.heap + EmptyCells(|ds|))
      && m1.st' == m.st'.(heap := m.st'.heap + EmptyCells(|ds'|))
    ensures Evolves(m, m1, x.keep, {}) && MemOk(j, x1, m1) && DynOk(j, x1) && StmtsOk(j, x1, ss)
    ensures EnvRel(x1.s, m1, x1.env, x1.env', FreeStmts(ss))
    ensures Cells(x1.env', NewNames(x.co, ss, StmtsNames(ss)), m1, x.keep)
    ensures x.co.Some? ==> CleanHere(j.c, ss, x1.scope, StmtsNames(ss))
    ensures forall l :: l in Locs(x1.env', NewNames(x.co, ss, StmtsNames(ss))) ==> l >= |m.st'.heap|
  {
    var ds := Declared(ss);
    var names := NewNames(x.co, ss, StmtsNames(ss));
    var ds' := Declared(RewriteBlock(x.co, ss, x.s));
    DeclaredRewrite(x.co, ss, x.s - Elements(ds), StmtsNames(ss));
    x1 := x.(s := x.s - Elements(ds), scope := x.scope + Elements(ds),
             env := Bind(ds, |m.st.heap|, x.env), env' := Bind(ds', |m.st'.heap|, x.env'));
    m1 := EnterCells(m, ds, ds', x1.env', x.env', x.keep);
    BlockEnvRel(j, x, x1, m, m1, ss);
    NewNamesFresh(x.co, ss, StmtsNames(ss));
    DeclaredAreNames(ss);
    BlockCells(x1.env', names, ds', ds, m, m1, x.keep);
    BlockDyn(j, x, x1, ss, ds', |m.st.heap|, |m.st'.heap|);
    BlockStmtsOk(j, x, x1, ss);
    assert forall y :: y in names ==> y in Elements(names) && y in Elements(ds');
  }

  lemma {:induction false} EnterCells(m: Mem, ds: seq<string>, ds': seq<string>, env1': Env, env': Env, keep: set<nat>)
    returns (m1: Mem)
    requires Related(m) && Apart(m, keep) && NoDup(ds) && NoDup(ds') && Elements(ds) <= Elements(ds')
    requires env1' == Bind(ds', |m.st'.heap|, env')
    ensures m1.st == m.st.(heap := m.st.heap + EmptyCells(|ds|))
    ensures m1.st' == m.st'.(heap := m.st'.heap + EmptyCells(|ds'|))
    ensures m1.b == m.b + PickNames(ds, |m.st.heap|, env1')
    ensures Evolves(m, m1, keep, {}) && Apart(m1, keep)
    ensures forall y :: y in ds' ==> y in env1' && |m.st'.heap| <= env1'[y] < |m.st'.heap| + |ds'|
    ensures forall y, z :: y in Elements(ds') && z in Elements(ds') && LocOf(env1', y) == LocOf(env1', z) ==> y == z
  {
    BoundAbove(ds', |m.st'.heap|, env');
    BoundApart(ds', |m.st'.heap|, env');
    var base := |m.st.heap|;
    forall y | y in ds ensures y in Elements(ds') {
      assert y in Elements(ds);
    }
    PickNamesOk(ds, base, env1', |m.st'.heap|);
    m1 := Extend(m, EmptyCells(|ds|), EmptyCells(|ds'|), PickNames(ds, base, env1'), keep, {});
  }

  lemma {:induction false} PickNamesOk(ds: seq<string>, base: nat, env': Env, low: nat)
    requires NoDup(ds) && forall y :: y in ds ==> y in env' && low <= env'[y]
    requires forall y, z :: y in Elements(ds) && z in Elements(ds) && LocOf(env', y) == LocOf(env', z) ==> y == z
    ensures var pick := PickNames(ds, base, env');
      && (forall l :: l in pick ==> base <= l < base + |ds| && low <= pick[l] && pick[l] == env'[ds[l - base]])
      && (forall l, q :: l in pick && q in pick && pick[l] == pick[q] ==> l == q)
  {
    var pick := PickNames(ds, base, env');
    forall l, q | l in pick && q in pick && pick[l] == pick[q] ensures l == q {
      assert ds[l - base] in Elements(ds) && ds[q - base] in Elements(ds);
      assert ds[l - base] == ds[q - base];
    }
  }

  lemma {:induction false} BoundAbove(ds: seq<string>, base: nat, env: Env)
    requires NoDup(ds)
    ensures forall y :: y in ds ==> y in Bind(ds, base, env) && base <= Bind(ds, base, env)[y] < base + |ds|
  {
    BindAt(ds, base, env);
  }

  lemma {:induction false} BoundApart(ds: seq<string>, base: nat, env: Env)
    requires NoDup(ds)
    ensures forall y, z ::
      y in Elements(ds) && z in Elements(ds) && LocOf(Bind(ds, base, env), y) == LocOf(Bind(ds, base, env), z) ==> y == z
  {
    BindAt(ds, base, env);
  }

  lemma {:induction false} BlockEnvRel(j: Job, x: Ctx, x1: Ctx, m: Mem, m1: Mem, ss: seq<Stmt>)
    requires BlockOk(j, x, ss) && CandidateNames(j.c) && Related(m)
    requires EnvRel(x.s, m, x.env, x.env', FreeBlock(ss))
    requires var ds, ds' := Declared(ss), Declared(RewriteBlock(x.co, ss, x.s));
      && x1.s == x.s - Elements(ds) && x1.env == Bind(ds, |m.st.heap|, x.env)
      && x1.env' == Bind(ds', |m.st'.heap|, x.env')
      && m1.b == m.b + PickNames(ds, |m.st.heap|, x1.env')
      && |m.st.heap| <= |m1.st.heap| && m1.st.heap[..|m.st.heap|] == m.st.heap
      && NoDup(ds') && Elements(ds') == Elements(ds) + Elements(NewNames(x.co, ss, StmtsNames(ss)))
    ensures EnvRel(x1.s, m1, x1.env, x1.env', FreeStmts(ss))
  {
    var ds, ds' := Declared(ss), Declared(RewriteBlock(x.co, ss, x.s));
    var names := NewNames(x.co, ss, StmtsNames(ss));
    BindAt(ds, |m.st.heap|, x.env);
    BindAt(ds', |m.st'.heap|, x.env');
    NewNamesFresh(x.co, ss, StmtsNames(ss));
    NoSitesNoNames(ss, StmtsNames(ss));
    FreeAreNames(ss);
    DeclaredAreNames(ss);
    forall y | y in FreeStmts(ss) ensures NameRel(x1.s, m1, x1.env, x1.env', y) {
      if y in Elements(ds) {
        var i :| 0 <= i < |ds| && ds[i] == y;
        NewNameRel(x1.s, m, m1, ds, i, x1.env, x1.env');
      } else {
        assert y in FreeBlock(ss);
        assert NameRel(x.s, m, x.env, x.env', y);
        assert Renamed(y, x.s) !in Elements(ds');
        OldNameRel(x.s, x1.s, m, m1, ds, x.env, x.env', x1.env, x1.env', y);
      }
    }
  }

  lemma {:induction false} NewNameRel(s1: Sub, m: Mem, m1: Mem, ds: seq<string>, i: nat, env1: Env, env1': Env)
    requires i < |ds| && ds[i] !in s1 && ds[i] in env1 && env1[ds[i]] == |m.st.heap| + i && ds[i] in env1'
    requires m1.b == m.b + PickNames(ds, |m.st.heap|, env1')
    ensures NameRel(s1, m1, env1, env1', ds[i])
  {
    assert |m.st.heap| + i in PickNames(ds, |m.st.heap|, env1');
  }

  lemma {:induction false} OldNameRel(s: Sub, s1: Sub, m: Mem, m1: Mem, ds: seq<string>, env: Env, env': Env, env1: Env,
    env1': Env, y: string)
    requires Related(m) && NameRel(s, m, env, env', y)
    requires (y in s <==> y in s1) && (y in s ==> s[y] == s1[y])
    requires (y in env <==> y in env1) && (y in env ==> env[y] == env1[y])
    requires var r := Renamed(y, s); (r in env' <==> r in env1') && (r in env' ==> env'[r] == env1'[r])
    requires m1.b == m.b + PickNames(ds, |m.st.heap|, env1')
    requires |m.st.heap| <= |m1.st.heap| && m1.st.heap[..|m.st.heap|] == m.st.heap
    ensures NameRel(s1, m1, env1, env1', y)
  {
    if y in env && env[y] < |m.st.heap| {
      assert m1.st.heap[env[y]] == m1.st.heap[..|m.st.heap|][env[y]];
    }
  }

  lemma {:induction false} BlockCells(env1': Env, names: seq<string>, ds': seq<string>, ds: seq<string>, m: Mem,
    m1: Mem, keep: set<nat>)
    requires NoDup(names) && NoDup(ds') && Elements(ds') == Elements(ds) + Elements(names)
    requires Elements(ds) !! Elements(names)
    requires forall y :: y in ds' ==> y in env1' && |m.st'.heap| <= env1'[y] < |m.st'.heap| + |ds'|
    requires forall y, z :: y in Elements(ds') && z in Elements(ds') && LocOf(env1', y) == LocOf(env1', z) ==> y == z
    requires Related(m) && Apart(m, keep)
    requires m1.b == m.b + PickNames(ds, |m.st.heap|, env1')
    requires m1.st' == m.st'.(heap := m.st'.heap + EmptyCells(|ds'|))
    ensures Cells(env1', names, m1, keep)
  {
    var pick := PickNames(ds, |m.st.heap|, env1');
    forall y | y in names ensures CellFree(env1', m1, keep, y) {
      assert y in Elements(names) && y in Elements(ds');
      forall l | l in m1.b ensures m1.b[l] != env1'[y] {
        if l in pick {
          assert ds[l - |m.st.heap|] in Elements(ds);
          assert LocOf(env1', ds[l - |m.st.heap|]) != LocOf(env1', y);
        } else {
          assert l in m.b;
        }
      }
    }
    forall i, q | 0 <= i < q < |names| && names[i] in env1' && names[q] in env1'
      ensures env1'[names[i]] != env1'[names[q]]
    {
      assert names[i] in Elements(names) && names[q] in Elements(names);
      assert LocOf(env1', names[i]) != LocOf(env1', names[q]);
    }
  }

  lemma {:induction false} BlockDyn(j: Job, x: Ctx, x1: Ctx, ss: seq<Stmt>, ds': seq<string>, base: nat, base': nat)
    requires DynOk(j, x) && BlockOk(j, x, ss)
    requires NoDup(ds') && Elements(ds') == Elements(Declared(ss)) + Elements(NewNames(x.co, ss, StmtsNames(ss)))
    requires x1.co == x.co && x1.scope == x.scope + Elements(Declared(ss))
    requires x1.env == Bind(Declared(ss), base, x.env) && x1.env' == Bind(ds', base', x.env')
    ensures DynOk(j, x1)
  {
    BindAt(Declared(ss), base, x.env);
    BindAt(ds', base', x.env');
    assert forall y :: y in Declared(ss) ==> y in Elements(Declared(ss));
    assert forall y :: y in ds' ==> y in Elements(ds');
    if x.co.Some? {
      CleanNames(j.c, ss, x.scope + Elements(Declared(ss)), StmtsNames(ss));
    }
  }

  lemma {:induction false} BlockStmtsOk(j: Job, x: Ctx, x1: Ctx, ss: seq<Stmt>)
    requires BlockOk(j, x, ss)
    requires x1.co == x.co && x1.scope == x.scope + Elements(Declared(ss)) && x1.s == x.s - Elements(Declared(ss))
    ensures StmtsOk(j, x1, ss)
  {
    forall y | y in WritesStmts(ss) ensures y !in x1.s || x1.s[y].ToVar? {
      if y !in Elements(Declared(ss)) {
        assert y in WritesBlock(ss);
      }
    }
    assert x.s == map[] ==> x1.s == map[];
  }
}
