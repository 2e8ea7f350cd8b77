/**
 One call, in both programs: entering a function, and at a call site of the
 helper, its hoisted arguments, its guards and its tail.
 */
module InlinerSite {
  import opened Basics
  import opened Expressions
  import opened GuardText
  import opened GuardInversion
  import opened Programs
  import opened Inliner
  import opened InlinerMemory
  import opened InlinerNames
  import opened InlinerOrder
  import opened InlinerSim

  // ----- what the analysis established -----

  lemma {:induction false} GuardsDeclareNothing(body: seq<Stmt>)
    ensures Declared(body[|LeadingGuards(body)|..]) == Declared(body)
    decreases |body|
  {
    if LeadingGuards(body) != [] {
      GuardsDeclareNothing(body[1..]);
      assert body[1..][|LeadingGuards(body[1..])|..] == body[|LeadingGuards(body)|..];
    } else {
      assert body[0..] == body;
    }
  }

  lemma {:induction false} Facts(j: Job)
    requires Good(j)
    ensures j.c.guards == LeadingGuards(j.c.f.body) && j.c.tail == j.c.f.body[|j.c.guards|..]
    ensures CallsNone(j.c.f.body, j.c.f.name) && Elements(j.c.f.params) !! WritesBlock(j.c.f.body)
    ensures NoEscape(j.c.tail, false)
    ensures forall g :: g in j.p.funs ==> SitesOkBlock(j.c, g.body, Elements(g.params))
    ensures forall g :: g in j.p.funs ==>
          WellFormedFun(g) && g.name !in j.p.globals && CleanBlock(j.c, g.body, Elements(g.params))
    ensures Declared(j.c.tail) == Declared(j.c.f.body) && CandidateNames(j.c)
    ensures !j.c.f.exported
  {
    GuardsDeclareNothing(j.c.f.body);
    var a, b := Elements(j.c.f.params), WritesBlock(j.c.f.body);
    assert forall y :: y in a && y in b ==> y in a * b;
  }

  // ----- calling a function that stays -----

  function PickRange(base: nat, base': nat, n: nat): Inj {
    map l | l in CellRange(base, n) :: base' + (l - base)
  }

  lemma {:induction false} EnterCallee(j: Job, x: Ctx, m: Mem, h: Fun, vs: seq<Value>, fuel: nat, fuel': nat)
    returns (x1: Ctx, m1: Mem)
    requires Good(j) && MemOk(j, x, m) && h in j.p.funs
    ensures x1 == Ctx(Some(j.c), map[], Elements(h.params), x.fwd, fuel, fuel',
                      Bind(h.params, |m.st.heap|, GlobalEnv(j.p)), Bind(h.params, |m.st'.heap|, GlobalEnv(j.p)), x.keep)
    ensures m1.st == m.st.(heap := m.st.heap + ParamCells(|h.params|, vs))
    ensures m1.st' == m.st'.(heap := m.st'.heap + ParamCells(|h.params|, vs))
    ensures Evolves(m, m1, x.keep, {}) && MemOk(j, x1, m1) && DynOk(j, x1) && BlockOk(j, x1, h.body)
    ensures EnvRel(map[], m1, x1.env, x1.env', FreeBlock(h.body))
  {
    hide Good, Evolves, Related, Bind, GlobalEnv;
    RelatedKeys(j, x, m);
    Facts(j);
    var k, base, base', g := |h.params|, |m.st.heap|, |m.st'.heap|, GlobalEnv(j.p);
    x1 := Ctx(Some(j.c), map[], Elements(h.params), x.fwd, fuel, fuel', Bind(h.params, base, g),
      Bind(h.params, base', g), x.keep);
    PickRangeOk(m, k);
    hide PickRange, CellRange;
    m1 := Extend(m, ParamCells(k, vs), ParamCells(k, vs), PickRange(base, base', k), x.keep, {});
    RelatedAfter(m, m1, x.keep);
    CalleeEnv(j, x1, m, m1, h);
    CalleeDyn(j, x1, h, base, base');
    NoSubNoCaptureBlock(h.body);
  }

  lemma {:induction false} RelatedKeys(j: Job, x: Ctx, m: Mem)
    requires MemOk(j, x, m)
    ensures (forall l :: l in m.b ==> l < |m.st.heap| && m.b[l] < |m.st'.heap|)
  {
  }

  lemma {:induction false} PickRangeOk(m: Mem, n: nat)
    requires forall l :: l in m.b ==> l < |m.st.heap| && m.b[l] < |m.st'.heap|
    ensures var pick := PickRange(|m.st.heap|, |m.st'.heap|, n);
      && (forall l :: l in pick ==> |m.st.heap| <= l < |m.st.heap| + n && pick[l] == |m.st'.heap| + (l - |m.st.heap|))
      && (forall l, q :: l in pick && q in m.b ==> m.b[q] != pick[l])
      && (forall l, q :: l in pick && q in pick && pick[l] == pick[q] ==> l == q)
  {
  }

  lemma {:induction false} CalleeEnv(j: Job, x1: Ctx, m: Mem, m1: Mem, h: Fun)
    requires NoDup(h.params) && GlobalsMapped(j, m.b)
    requires x1.env == Bind(h.params, |m.st.heap|, GlobalEnv(j.p))
    requires x1.env' == Bind(h.params, |m.st'.heap|, GlobalEnv(j.p))
    requires m1.b == m.b + PickRange(|m.st.heap|, |m.st'.heap|, |h.params|)
    requires forall l :: l in m.b ==> l < |m.st.heap|
    ensures EnvRel(map[], m1, x1.env, x1.env', FreeBlock(h.body)) && GlobalsMapped(j, m1.b)
  {
    var g, base, base' := GlobalEnv(j.p), |m.st.heap|, |m.st'.heap|;
    BindAt(h.params, base, g);
    BindAt(h.params, base', g);
    forall y | y in FreeBlock(h.body) ensures NameRel(map[], m1, x1.env, x1.env', y) {
      if y in h.params {
        var i :| 0 <= i < |h.params| && h.params[i] == y;
        assert base + i in PickRange(base, base', |h.params|);
      }
    }
  }

  lemma {:induction false} CalleeDyn(j: Job, x1: Ctx, h: Fun, base: nat, base': nat)
    requires NoDup(h.params) && x1.scope == Elements(h.params)
    requires x1.env == Bind(h.params, base, GlobalEnv(j.p)) && x1.env' == Bind(h.params, base', GlobalEnv(j.p))
    ensures DynOk(j, x1)
  {
    BindAt(h.params, base, GlobalEnv(j.p));
    BindAt(h.params, base', GlobalEnv(j.p));
    assert forall y :: y in h.params <==> y in Elements(h.params);
  }

  // ----- the hoisted arguments -----

  lemma SubNothing(e: Expr)
    ensures SubE(e, map[]) == e
  {
  }

  lemma LiteralValue(w: World, e: Expr, env: Env, st: State)
    requires Unwrap(e).Lit?
    ensures Eval(w, e, env, st) == (Norm(Unwrap(e).v), st)
  {
  }

  /** Which parameters the plan substitutes, and by what. */
  lemma {:induction false} PlanSubstitutes(c: Candidate, args: seq<Expr>, i: nat, taken: set<string>)
    requires i <= |c.f.params| && NoDup(c.f.params)
    ensures var plan := PlanFrom(c, args, i, taken);
      && (forall q :: i <= q < |c.f.params| ==> (c.f.params[q] in plan.sub <==> c.Used(c.f.params[q])))
      && (forall q :: i <= q < |c.f.params| && c.Used(c.f.params[q]) ==>
            if q < |args| then plan.sub[c.f.params[q]].ToVar? && plan.sub[c.f.params[q]].t in plan.added
            else plan.sub[c.f.params[q]].ToUndefined?)
      && (forall a, b :: a in plan.sub && b in plan.sub && plan.sub[a].ToVar? && plan.sub[a] == plan.sub[b] ==> a == b)
      && (forall a :: a in plan.sub && plan.sub[a].ToVar? ==> plan.sub[a].t in plan.added)
      && (forall a :: a in plan.sub ==> a in c.f.params[i..])
      && Elements(plan.added) !! taken
    decreases |c.f.params| - i
  {
    hide FreeBlock, FreshNumbered;
    if i < |c.f.params| {
      var y := c.f.params[i];
      assert forall a :: a in c.f.params[i + 1..] ==> a in c.f.params[i..];
      assert y in c.f.params[i..] && y !in c.f.params[i + 1..];
      if c.Used(y) && i < |args| {
        var temp := FreshName(TEMP + y, taken);
        PlanSubstitutes(c, args, i + 1, taken + {temp});
      } else {
        PlanSubstitutes(c, args, i + 1, taken);
      }
    }
  }

  /** The temporaries hold the argument values. */
  ghost predicate TempsHold(c: Candidate, sub: Sub, i: nat, vs: seq<Value>, env': Env, st': State)
    requires i <= |c.f.params|
  {
    forall q :: i <= q < |c.f.params| && c.f.params[q] in sub && sub[c.f.params[q]].ToVar? ==>
      && q - i < |vs| && sub[c.f.params[q]].t in env'
      && env'[sub[c.f.params[q]].t] < |st'.heap|
      && st'.heap[env'[sub[c.f.params[q]].t]] == Some(vs[q - i])
  }

  /** Evaluating the arguments, against running the hoisted statements. */
  ghost predicate PrefixDone(j: Job, x: Ctx, m: Mem, plan: Plan, i: nat, o: ArgsOutcome, st1: State, r': Result)
    requires i <= |j.c.f.params|
  {
    && r'.0 == (if o.ArgThrown? then Throws(o.error) else Normal)
    && Evolves(m, Mem(m.b, st1, r'.1), x.keep, {})
    && (o.ArgValues? ==> TempsHold(j.c, plan.sub, i, o.vs, x.env', r'.1))
  }

  lemma {:induction false} PrefixSim(j: Job, x: Ctx, m: Mem, args: seq<Expr>, i: nat, taken: set<string>)
    requires i <= |j.c.f.params| && NoDup(j.c.f.params) && |args| <= |j.c.f.params| && MemOk(j, x, m)
    requires i <= |args| ==> EnvRel(map[], m, x.env, x.env', ArgNames(args[i..]))
    requires Cells(x.env', PlanFrom(j.c, args, i, taken).added, m, x.keep)
    ensures var plan := PlanFrom(j.c, args, i, taken);
      var (o, st1) := EvalArgs(j.w, if i <= |args| then args[i..] else [], x.env, m.st);
      PrefixDone(j, x, m, plan, i, o, st1, ExecStmts(j.After(), plan.prefix, x.env', m.st', x.k))
    decreases |j.c.f.params| - i, 1
  {
    hide Evolves, Related, EnvRel, Cells;
    EvolvesRefl(m, x.keep, {});
    if i < |j.c.f.params| {
      if i >= |args| {
        PrefixMissing(j, x, m, args, i, taken);
      } else {
        var m1 := FirstArg(j, x, m, args, i, taken);
        if j.c.Used(j.c.f.params[i]) {
          PrefixTemp(j, x, m, m1, args, i, taken);
        } else if Unwrap(args[i]).Lit? {
          PrefixDropped(j, x, m, m1, args, i, taken);
        } else {
          PrefixKept(j, x, m, m1, args, i, taken);
        }
      }
    }
  }

  lemma {:induction false} PrefixMissing(j: Job, x: Ctx, m: Mem, args: seq<Expr>, i: nat, taken: set<string>)
    requires |args| <= i < |j.c.f.params| && NoDup(j.c.f.params) && MemOk(j, x, m)
    requires Cells(x.env', PlanFrom(j.c, args, i, taken).added, m, x.keep)
    ensures var plan := PlanFrom(j.c, args, i, taken);
      PrefixDone(j, x, m, plan, i, ArgValues([]), m.st, ExecStmts(j.After(), plan.prefix, x.env', m.st', x.k))
    decreases |j.c.f.params| - i, 0
  {
    PrefixSim(j, x, m, args, i + 1, taken);
    PlanSubstitutes(j.c, args, i, taken);
    PlanSubstitutes(j.c, args, i + 1, taken);
  }

  /** The first argument has been evaluated in both programs. */
  ghost predicate FirstEvaluated(j: Job, x: Ctx, m: Mem, m1: Mem, args: seq<Expr>, i: nat, taken: set<string>) {
    && i < |args| <= |j.c.f.params| && NoDup(j.c.f.params) && MemOk(j, x, m) && MemOk(j, x, m1)
    && Cells(x.env', PlanFrom(j.c, args, i, taken).added, m1, x.keep)
    && Evolves(m, m1, x.keep, {}) && m1.b == m.b
    && Eval(j.w, args[i], x.env, m.st).1 == m1.st
    && Eval(j.w, args[i], x.env', m.st') == (Eval(j.w, args[i], x.env, m.st).0, m1.st')
    && EnvRel(map[], m1, x.env, x.env', ArgNames(args[i + 1..]))
  }

  lemma {:induction false} FirstArg(j: Job, x: Ctx, m: Mem, args: seq<Expr>, i: nat, taken: set<string>)
    returns (m1: Mem)
    requires i < |args| <= |j.c.f.params| && NoDup(j.c.f.params) && MemOk(j, x, m)
    requires EnvRel(map[], m, x.env, x.env', ArgNames(args[i..]))
    requires Cells(x.env', PlanFrom(j.c, args, i, taken).added, m, x.keep)
    ensures FirstEvaluated(j, x, m, m1, args, i, taken)
    ensures args[i..][1..] == args[i + 1..] && args[i..][0] == args[i]
  {
    var added := PlanFrom(j.c, args, i, taken).added;
    var own := Locs(x.env', added);
    SubNothing(args[i]);
    assert args[i..][1..] == args[i + 1..] && args[i..][0] == args[i];
    CellsSplit(x.env', [], added, m, x.keep);
    assert [] + added == added;
    var x1 := x.(s := map[], keep := x.keep + own);
    assert MemOk(j, x1, m);
    m1 := EvalStep(j, x1, m, args[i]);
    CellsStay(x.env', added, m, m1, x.keep, x1.keep, {});
    EnvRelEvolves(map[], m, m1, x.env, x.env', ArgNames(args[i + 1..]), x1.keep, {});
  }

  lemma {:induction false} ExprStep(m: Machine, e: Expr, env: Env, st: State, fuel: nat)
    ensures ExecStmt(m, ExprS(e), env, st, fuel) == AfterEval(Eval(m.w, e, env, st).0, Eval(m.w, e, env, st).1)
  {
  }

  lemma {:induction false} DeclStep(m: Machine, y: string, e: Expr, env: Env, st: State, fuel: nat)
    ensures ExecStmt(m, Decl(y, e), env, st, fuel) ==
      var (o, st1) := Eval(m.w, e, env, st);
      if o.Thrown? then (Throws(o.error), st1) else Init(y, o.v, env, st1)
  {
  }

  /** A literal whose parameter the body never mentions is dropped. */
  lemma {:induction false} PrefixDropped(j: Job, x: Ctx, m: Mem, m1: Mem, args: seq<Expr>, i: nat, taken: set<string>)
    requires FirstEvaluated(j, x, m, m1, args, i, taken) && !j.c.Used(j.c.f.params[i]) && Unwrap(args[i]).Lit?
    requires args[i..][1..] == args[i + 1..] && args[i..][0] == args[i]
    ensures var plan := PlanFrom(j.c, args, i, taken);
      var (o, st1) := EvalArgs(j.w, args[i..], x.env, m.st);
      PrefixDone(j, x, m, plan, i, o, st1, ExecStmts(j.After(), plan.prefix, x.env', m.st', x.k))
    decreases |j.c.f.params| - i, 0
  {
    hide Evolves, Related, EnvRel, Cells, Eval, MemOk, ArgNames, FreeBlock, FreshName, ExecStmts, ExecStmt, Unwrap;
    var rest := PlanFrom(j.c, args, i + 1, taken);
    var plan := PlanFrom(j.c, args, i, taken);
    PlanSubstitutes(j.c, args, i, taken);
    assert plan == rest;
    LiteralValue(j.w, args[i], x.env, m.st);
    LiteralValue(j.w, args[i], x.env', m.st');
    assert m1 == m;
    PrefixSim(j, x, m, args, i + 1, taken);
  }

  /** Any other argument whose parameter the body never mentions stays for its effect. */
  lemma {:induction false} PrefixKept(j: Job, x: Ctx, m: Mem, m1: Mem, args: seq<Expr>, i: nat, taken: set<string>)
    requires FirstEvaluated(j, x, m, m1, args, i, taken) && !j.c.Used(j.c.f.params[i]) && !Unwrap(args[i]).Lit?
    requires args[i..][1..] == args[i + 1..] && args[i..][0] == args[i]
    ensures var plan := PlanFrom(j.c, args, i, taken);
      var (o, st1) := EvalArgs(j.w, args[i..], x.env, m.st);
      PrefixDone(j, x, m, plan, i, o, st1, ExecStmts(j.After(), plan.prefix, x.env', m.st', x.k))
    decreases |j.c.f.params| - i, 0
  {
    hide Evolves, Related, EnvRel, Cells, Eval, MemOk, ArgNames, FreeBlock, FreshName, ExecStmts, ExecStmt, Unwrap,
         EvalArgs;
    var rest := PlanFrom(j.c, args, i + 1, taken);
    var plan := PlanFrom(j.c, args, i, taken);
    PlanSubstitutes(j.c, args, i, taken);
    assert plan == rest.(prefix := [ExprS(args[i])] + rest.prefix);
    var o := Eval(j.w, args[i], x.env, m.st).0;
    HeadStep(j.After(), ExprS(args[i]), rest.prefix, x.env', m.st', x.k);
    ArgsStep(j.w, args[i], args[i + 1..], x.env, m.st);
    assert [args[i]] + args[i + 1..] == args[i..];
    ExprStep(j.After(), args[i], x.env', m.st', x.k);
    if o.Norm? {
      PrefixSim(j, x, m1, args, i + 1, taken);
      var st2 := EvalArgs(j.w, args[i + 1..], x.env, m1.st).1;
      var r' := ExecStmts(j.After(), rest.prefix, x.env', m1.st', x.k);
      EvolvesTrans(m, m1, Mem(m.b, st2, r'.1), x.keep, {}, x.keep, {}, x.keep, {});
    }
  }

  /** An argument that becomes a temporary. */
  lemma {:induction false} PrefixTemp(j: Job, x: Ctx, m: Mem, m1: Mem, args: seq<Expr>, i: nat, taken: set<string>)
    requires FirstEvaluated(j, x, m, m1, args, i, taken) && j.c.Used(j.c.f.params[i])
    requires args[i..][1..] == args[i + 1..] && args[i..][0] == args[i]
    ensures var plan := PlanFrom(j.c, args, i, taken);
      var (o, st1) := EvalArgs(j.w, args[i..], x.env, m.st);
      PrefixDone(j, x, m, plan, i, o, st1, ExecStmts(j.After(), plan.prefix, x.env', m.st', x.k))
    decreases |j.c.f.params| - i, 0
  {
    hide Evolves, Related, EnvRel, Cells, Eval, ArgNames, FreeBlock, FreshName, MemOk, ExecStmts, ExecStmt, EvalArgs,
         TempsHold, Init;
    var temp := FreshName(TEMP + j.c.f.params[i], taken);
    var rest := PlanFrom(j.c, args, i + 1, taken + {temp});
    var o := Eval(j.w, args[i], x.env, m.st).0;
    HeadStep(j.After(), Decl(temp, args[i]), rest.prefix, x.env', m.st', x.k);
    ArgsStep(j.w, args[i], args[i + 1..], x.env, m.st);
    assert [args[i]] + args[i + 1..] == args[i..];
    DeclStep(j.After(), temp, args[i], x.env', m.st', x.k);
    if o.Norm? {
      var m2 := SetTemp(j, x, m1, temp, rest.added, o.v);
      EnvRelEvolves(map[], m1, m2, x.env, x.env', ArgNames(args[i + 1..]), x.keep, {});
      var x1 := x.(keep := x.keep + {x.env'[temp]});
      PrefixSim(j, x1, m2, args, i + 1, taken + {temp});
      var st2 := EvalArgs(j.w, args[i + 1..], x.env, m1.st).1;
      var r' := ExecStmts(j.After(), rest.prefix, x.env', m2.st', x.k);
      var m3 := Mem(m.b, st2, r'.1);
      EvolvesTrans(m, m1, m2, x.keep, {}, x.keep, {}, x.keep, {});
      EvolvesTrans(m, m2, m3, x.keep, {}, x.keep, {}, x1.keep, {});
      PlanSubstitutes(j.c, args, i + 1, taken + {temp});
      var rest' := EvalArgs(j.w, args[i + 1..], x.env, m1.st).0;
      if rest'.ArgValues? {
        KeepsCell(m2, m3, x1.keep, x.env'[temp]);
        TempsHoldStep(j.c, rest.sub, i, temp, o.v, rest'.vs, x.env', m3.st');
      }
    }
  }

  lemma {:induction false} ArgsStep(w: World, e: Expr, es: seq<Expr>, env: Env, st: State)
    ensures EvalArgs(w, [e] + es, env, st) ==
      var (v, st1) := Eval(w, e, env, st);
      if v.Thrown? then (ArgThrown(v.error), st1)
      else
        var (rest, st2) := EvalArgs(w, es, env, st1);
        if rest.ArgThrown? then (rest, st2) else (ArgValues([v.v] + rest.vs), st2)
  {
    assert ([e] + es)[1..] == es;
  }

  lemma {:induction false} TempsHoldStep(c: Candidate, sub: Sub, i: nat, temp: string, v: Value, vs: seq<Value>,
    env': Env, st': State)
    requires i < |c.f.params| && TempsHold(c, sub, i + 1, vs, env', st') && NoDup(c.f.params)
    requires temp in env' && env'[temp] < |st'.heap| && st'.heap[env'[temp]] == Some(v)
    ensures TempsHold(c, sub[c.f.params[i] := ToVar(temp)], i, [v] + vs, env', st')
  {
  }

  lemma {:induction false} SetTemp(j: Job, x: Ctx, m: Mem, temp: string, rest: seq<string>, v: Value) returns (m2: Mem)
    requires MemOk(j, x, m) && Cells(x.env', [temp] + rest, m, x.keep)
    ensures temp in x.env' && Init(temp, v, x.env', m.st') == (Normal, m2.st') && m2 == Mem(m.b, m.st, m2.st')
    ensures x.env'[temp] < |m2.st'.heap| && m2.st'.heap[x.env'[temp]] == Some(v)
    ensures Evolves(m, m2, x.keep, {})
    ensures var x1 := x.(keep := x.keep + {x.env'[temp]}); MemOk(j, x1, m2) && Cells(x.env', rest, m2, x1.keep)
  {
    assert temp in [temp] + rest;
    assert CellFree(x.env', m, x.keep, temp);
    m2 := Mem(m.b, m.st, m.st'.(heap := m.st'.heap[x.env'[temp] := Some(v)]));
    forall y | y in rest ensures CellFree(x.env', m2, x.keep + {x.env'[temp]}, y) {
      assert y in [temp] + rest;
      assert CellFree(x.env', m, x.keep, y);
      var i :| 0 <= i < |rest| && rest[i] == y;
      assert ([temp] + rest)[0] == temp && ([temp] + rest)[i + 1] == y;
    }
    forall i, q | 0 <= i < q < |rest| && rest[i] in x.env' && rest[q] in x.env'
      ensures x.env'[rest[i]] != x.env'[rest[q]]
    {
      assert ([temp] + rest)[i + 1] == rest[i] && ([temp] + rest)[q + 1] == rest[q];
    }
  }

  lemma {:induction false} KeepsCell(m: Mem, m1: Mem, keep: set<nat>, l: nat)
    requires Evolves(m, m1, keep, {}) && l in keep && l < |m.st'.heap|
    ensures l < |m1.st'.heap| && m1.st'.heap[l] == m.st'.heap[l]
  {
  }

  // ----- inside the helper -----

  /** The original's environment at the start of the helper's body. */
  function HelperEnv(j: Job, base: nat): Env {
    Bind(Declared(j.c.tail), base + |j.c.f.params|, Bind(j.c.f.params, base, GlobalEnv(j.p)))
  }

  /** The inlined program's name for the i-th cell the original allocates on entry. */
  function CellName(c: Candidate, sub: Sub, locals: seq<string>, i: nat): Option<string> {
    if i < |c.f.params| then
      if c.f.params[i] in sub && sub[c.f.params[i]].ToVar? then Some(sub[c.f.params[i]].t) else None
    else if i < |c.f.params| + |locals| then Some(locals[i - |c.f.params|])
    else None
  }

  function NameFor(c: Candidate, sub: Sub, locals: seq<string>, base: nat, l: nat): Option<string> {
    if l < base then None else CellName(c, sub, locals, l - base)
  }

  function PickHelper(c: Candidate, sub: Sub, locals: seq<string>, base: nat, env': Env): Inj {
    map l | l in CellRange(base, |c.f.params| + |locals|) && NameFor(c, sub, locals, base, l).Some? ::
      LocOf(env', NameFor(c, sub, locals, base, l).value)
  }

  /** The names used, one for each cell. */
  ghost predicate NamesApart(c: Candidate, sub: Sub, locals: seq<string>, names: seq<string>) {
    && (forall i: nat :: CellName(c, sub, locals, i).Some? ==> CellName(c, sub, locals, i).value in names)
    && (forall i: nat, k: nat ::
         CellName(c, sub, locals, i).Some? && CellName(c, sub, locals, i) == CellName(c, sub, locals, k) ==> i == k)
  }

  /** Cells of distinct names are distinct. */
  lemma {:induction false} CellsInjective(env': Env, names: seq<string>, m: Mem, keep: set<nat>)
    requires Cells(env', names, m, keep)
    ensures forall y, z :: y in names && z in names && LocOf(env', y) == LocOf(env', z) ==> y == z
  {
    forall y, z | y in names && z in names && LocOf(env', y) == LocOf(env', z) ensures y == z {
      var i :| 0 <= i < |names| && names[i] == y;
      var k :| 0 <= k < |names| && names[k] == z;
      assert CellFree(env', m, keep, y) && CellFree(env', m, keep, z);
    }
  }

  /** Entering the helper: its parameters are the temporaries, its locals (when they
      are spliced into the caller's block) the names chosen for them. */
  lemma {:induction false} EnterHelper(j: Job, x: Ctx, m: Mem, m1: Mem, sub: Sub, locals: seq<string>,
    names: seq<string>, vs: seq<Value>)
    returns (m2: Mem)
    requires MemOk(j, x, m1) && m1.b == m.b && Cells(x.env', names, m, x.keep) && NamesApart(j.c, sub, locals, names)
    requires |m.st'.heap| <= |m1.st'.heap| && |locals| <= |Declared(j.c.tail)|
    requires forall y :: y in locals ==> y in x.env' && x.env'[y] < |m1.st'.heap| && m1.st'.heap[x.env'[y]] == None
    requires TempsHold(j.c, sub, 0, vs, x.env', m1.st')
    ensures m2.st == m1.st.(heap := m1.st.heap + (ParamCells(|j.c.f.params|, vs) + EmptyCells(|Declared(j.c.tail)|)))
    ensures m2.st' == m1.st' && m2.b == m1.b + PickHelper(j.c, sub, locals, |m1.st.heap|, x.env')
    ensures Evolves(m1, m2, x.keep, Locs(x.env', names)) && MemOk(j, x, m2)
  {
    hide Evolves, Related, GlobalsMapped, Cells, HelperEnv, Declared, TempsHold, PickHelper, CellRange, Locs,
         NamesApart, LocOf;
    var base := |m1.st.heap|;
    var cs := ParamCells(|j.c.f.params|, vs) + EmptyCells(|Declared(j.c.tail)|);
    var pick := PickHelper(j.c, sub, locals, base, x.env');
    var own := Locs(x.env', names);
    OwnCells(x.env', names, m, x.keep);
    PickInjective(j.c, sub, locals, base, x.env', names, m, x.keep);
    PickFits(j.c, sub, locals, base, x.env', names, vs, m1.st', |Declared(j.c.tail)|);
    assert m1.st'.heap + [] == m1.st'.heap;
    RelatedNow(j, x, m1);
    m2 := Extend(m1, cs, [], pick, x.keep, own);
    MemStays(j, x, m1, m2, x.keep, own);
  }

  lemma {:induction false} PickFits(c: Candidate, sub: Sub, locals: seq<string>, base: nat, env': Env,
    names: seq<string>, vs: seq<Value>, st': State, k: nat)
    requires NamesApart(c, sub, locals, names) && TempsHold(c, sub, 0, vs, env', st') && |locals| <= k
    requires forall y :: y in names ==> y in env'
    requires forall y :: y in locals ==> y in env' && env'[y] < |st'.heap| && st'.heap[env'[y]] == None
    ensures var pick := PickHelper(c, sub, locals, base, env');
      forall l :: l in pick ==>
        && base <= l < base + |c.f.params| + k && pick[l] in Locs(env', names) && pick[l] < |st'.heap|
        && (ParamCells(|c.f.params|, vs) + EmptyCells(k))[l - base] == st'.heap[pick[l]]
  {
    hide TempsHold, ParamCells, EmptyCells, CellRange;
    var pick := PickHelper(c, sub, locals, base, env');
    PickDomain(c, sub, locals, base, env');
    forall l | l in pick
      ensures pick[l] in Locs(env', names) && pick[l] < |st'.heap|
        && (ParamCells(|c.f.params|, vs) + EmptyCells(k))[l - base] == st'.heap[pick[l]]
    {
      assert CellName(c, sub, locals, l - base).value in names;
      PickHolds(c, sub, locals, l - base, env', vs, st', k);
    }
  }

  lemma {:induction false} PickDomain(c: Candidate, sub: Sub, locals: seq<string>, base: nat, env': Env)
    ensures var pick := PickHelper(c, sub, locals, base, env');
      forall l :: l in pick ==>
        && base <= l < base + |c.f.params| + |locals| && CellName(c, sub, locals, l - base).Some?
        && pick[l] == LocOf(env', CellName(c, sub, locals, l - base).value)
  {
  }

  lemma {:induction false} RelatedNow(j: Job, x: Ctx, m: Mem)
    requires MemOk(j, x, m)
    ensures forall l :: l in m.b ==> l < |m.st.heap|
  {
  }

  lemma {:induction false} OwnCells(env': Env, names: seq<string>, m: Mem, keep: set<nat>)
    requires Cells(env', names, m, keep)
    ensures keep !! Locs(env', names) && forall l, q :: l in Locs(env', names) && q in m.b ==> m.b[q] != l
    ensures forall y :: y in names ==> y in env' && env'[y] < |m.st'.heap|
  {
    forall y | y in names ensures CellFree(env', m, keep, y) {
    }
  }

  lemma {:induction false} PickInjective(c: Candidate, sub: Sub, locals: seq<string>, base: nat, env': Env,
    names: seq<string>, m: Mem, keep: set<nat>)
    requires Cells(env', names, m, keep) && NamesApart(c, sub, locals, names)
    ensures var pick := PickHelper(c, sub, locals, base, env');
      forall l, q :: l in pick && q in pick && pick[l] == pick[q] ==> l == q
  {
    CellsInjective(env', names, m, keep);
    var pick := PickHelper(c, sub, locals, base, env');
    forall l, q | l in pick && q in pick && pick[l] == pick[q] ensures l == q {
      var y, z := CellName(c, sub, locals, l - base).value, CellName(c, sub, locals, q - base).value;
      assert y in names && z in names;
      assert LocOf(env', y) == LocOf(env', z);
    }
  }

  lemma {:induction false} PickHolds(c: Candidate, sub: Sub, locals: seq<string>, i: nat, env': Env, vs: seq<Value>,
    st': State, k: nat)
    requires CellName(c, sub, locals, i).Some? && TempsHold(c, sub, 0, vs, env', st') && |locals| <= k
    requires forall y :: y in locals ==> y in env' && env'[y] < |st'.heap| && st'.heap[env'[y]] == None
    ensures var l := LocOf(env', CellName(c, sub, locals, i).value);
      l < |st'.heap| && (ParamCells(|c.f.params|, vs) + EmptyCells(k))[i] == st'.heap[l]
  {
    if i >= |c.f.params| {
      assert locals[i - |c.f.params|] in locals;
    }
  }

  // ----- what names mean inside the helper -----

  lemma {:induction false} HelperEnvAt(j: Job, base: nat)
    requires CandidateNames(j.c)
    ensures var env, k := HelperEnv(j, base), |j.c.f.params|;
      && (forall q :: 0 <= q < k ==> j.c.f.params[q] in env && env[j.c.f.params[q]] == base + q)
      && (forall q :: 0 <= q < |Declared(j.c.tail)| ==>
            Declared(j.c.tail)[q] in env && env[Declared(j.c.tail)[q]] == base + k + q)
      && (forall y :: y !in j.c.f.params && y !in Declared(j.c.tail) ==>
            (y in env <==> y in GlobalEnv(j.p)) && (y in env ==> env[y] == GlobalEnv(j.p)[y]))
  {
    var k, g := |j.c.f.params|, GlobalEnv(j.p);
    var env1 := Bind(j.c.f.params, base, g);
    BindAt(j.c.f.params, base, g);
    BindAt(Declared(j.c.tail), base + k, env1);
    forall q | 0 <= q < k ensures j.c.f.params[q] !in Declared(j.c.tail) {
      assert j.c.f.params[q] in Elements(j.c.f.params);
    }
  }

  /** The stores right after the helper was entered. */
  ghost predicate Entered(j: Job, x: Ctx, m1: Mem, m2: Mem, sub: Sub, locals: seq<string>, vs: seq<Value>) {
    && CandidateNames(j.c) && (forall l :: l in m1.b ==> l < |m1.st.heap|)
    && |locals| <= |Declared(j.c.tail)|
    && m2.st.heap == m1.st.heap + (ParamCells(|j.c.f.params|, vs) + EmptyCells(|Declared(j.c.tail)|))
    && m2.b == m1.b + PickHelper(j.c, sub, locals, |m1.st.heap|, x.env')
  }

  lemma {:induction false} ParamRel(j: Job, x: Ctx, m1: Mem, m2: Mem, sub: Sub, locals: seq<string>, vs: seq<Value>,
    s: Sub, q: nat)
    requires Entered(j, x, m1, m2, sub, locals, vs) && q < |j.c.f.params|
    requires j.c.f.params[q] in sub && j.c.f.params[q] in s && s[j.c.f.params[q]] == sub[j.c.f.params[q]]
    requires if q < |vs| then sub[j.c.f.params[q]].ToVar? && sub[j.c.f.params[q]].t in x.env'
      else sub[j.c.f.params[q]].ToUndefined?
    ensures NameRel(s, m2, HelperEnv(j, |m1.st.heap|), x.env', j.c.f.params[q])
  {
    HelperEnvAt(j, |m1.st.heap|);
    var y, l := j.c.f.params[q], |m1.st.heap| + q;
    var pick := PickHelper(j.c, sub, locals, |m1.st.heap|, x.env');
    assert m2.st.heap[l] == Some(if q < |vs| then vs[q] else Undefined);
    if sub[y].ToVar? {
      assert NameFor(j.c, sub, locals, |m1.st.heap|, l) == Some(sub[y].t);
      assert l in CellRange(|m1.st.heap|, |j.c.f.params| + |locals|);
      assert l in pick;
    } else {
      assert NameFor(j.c, sub, locals, |m1.st.heap|, l) == None;
      assert l !in pick;
    }
  }

  lemma {:induction false} LocalRel(j: Job, x: Ctx, m1: Mem, m2: Mem, sub: Sub, locals: seq<string>, vs: seq<Value>,
    s: Sub, q: nat)
    requires Entered(j, x, m1, m2, sub, locals, vs) && q < |locals|
    requires var y := Declared(j.c.tail)[q];
      Renamed(y, s) == locals[q] && locals[q] in x.env' && (y in s ==> s[y].ToVar?)
    ensures NameRel(s, m2, HelperEnv(j, |m1.st.heap|), x.env', Declared(j.c.tail)[q])
  {
    hide HelperEnv, Declared, CandidateNames, PickHelper, CellRange, CellName, ParamCells, EmptyCells;
    HelperEnvAt(j, |m1.st.heap|);
    var l := |m1.st.heap| + |j.c.f.params| + q;
    PickedLocal(j.c, sub, locals, |m1.st.heap|, x.env', q);
    assert l in m2.b && m2.b[l] == x.env'[locals[q]];
  }

  lemma {:induction false} PickedLocal(c: Candidate, sub: Sub, locals: seq<string>, base: nat, env': Env, q: nat)
    requires q < |locals|
    ensures var pick := PickHelper(c, sub, locals, base, env');
      base + |c.f.params| + q in pick && pick[base + |c.f.params| + q] == LocOf(env', locals[q])
  {
    var l := base + |c.f.params| + q;
    assert NameFor(c, sub, locals, base, l) == Some(locals[q]);
    assert l in CellRange(base, |c.f.params| + |locals|);
  }

  /** A name the helper takes from outside means the same global in both programs. */
  lemma {:induction false} OutsideRel(j: Job, x: Ctx, m2: Mem, s: Sub, base: nat, y: string)
    requires CandidateNames(j.c) && DynOk(j, x) && x.co.Some? && GlobalsMapped(j, m2.b)
    requires y !in j.c.f.params && y !in Declared(j.c.tail) && y in Outside(j.c.f) && y !in x.scope && y !in s
    ensures NameRel(s, m2, HelperEnv(j, base), x.env', y)
  {
    HelperEnvAt(j, base);
  }

  lemma {:induction false} FreeHelperName(j: Job, x: Ctx, y: string)
    requires Good(j) && y in FreeStmts(j.c.f.body) && y !in j.c.f.params && y !in Declared(j.c.tail)
    requires Outside(j.c.f) !! x.scope
    ensures y in Outside(j.c.f) && y !in x.scope
  {
    Facts(j);
    assert y in FreeBlock(j.c.f.body);
    assert y !in Elements(j.c.f.params);
  }

  /** What is known of the plan at a call site. */
  ghost predicate PlanKnown(j: Job, x: Ctx, plan: Plan, args: seq<Expr>) {
    && (forall q :: 0 <= q < |j.c.f.params| ==> (j.c.f.params[q] in plan.sub <==> j.c.Used(j.c.f.params[q])))
    && (forall q :: 0 <= q < |j.c.f.params| && j.c.Used(j.c.f.params[q]) ==>
          if q < |args| then plan.sub[j.c.f.params[q]].ToVar? && plan.sub[j.c.f.params[q]].t in x.env'
          else plan.sub[j.c.f.params[q]].ToUndefined?)
    && (forall a :: a in plan.sub ==> a in j.c.f.params)
  }

  /** All the names the helper's body reads, once its substitution is in force. */
  lemma {:induction false} HelperEnvRel(j: Job, x: Ctx, m1: Mem, m2: Mem, plan: Plan, args: seq<Expr>, vs: seq<Value>,
                     ren: Sub, locals: seq<string>, names: set<string>)
    requires Good(j) && Entered(j, x, m1, m2, plan.sub, locals, vs) && PlanKnown(j, x, plan, args) && |vs| == |args|
    requires DynOk(j, x) && x.co.Some? && GlobalsMapped(j, m2.b) && Outside(j.c.f) !! x.scope
    requires ren.Keys <= Elements(Declared(j.c.tail))
    requires names <= FreeStmts(j.c.f.body)
    requires locals == [] ==> names !! Elements(Declared(j.c.tail))
    requires locals != [] ==> |locals| == |Declared(j.c.tail)|
    requires forall q :: 0 <= q < |locals| ==>
      var y := Declared(j.c.tail)[q];
      Renamed(y, ren) == locals[q] && locals[q] in x.env' && (y in ren ==> ren[y].ToVar?)
    ensures EnvRel(plan.sub + ren, m2, HelperEnv(j, |m1.st.heap|), x.env', names)
  {
    hide Good, NameRel, HelperEnv, DynOk, GlobalsMapped, Entered;
    Facts(j);
    var s, ds := plan.sub + ren, Declared(j.c.tail);
    assert CandidateNames(j.c);
    forall y | y in names ensures NameRel(s, m2, HelperEnv(j, |m1.st.heap|), x.env', y) {
      if y in j.c.f.params {
        var q :| 0 <= q < |j.c.f.params| && j.c.f.params[q] == y;
        assert y in Elements(j.c.f.params) && y !in Elements(ds);
        assert j.c.Used(y);
        ParamRel(j, x, m1, m2, plan.sub, locals, vs, s, q);
      } else if y in ds {
        assert y in Elements(ds);
        var q :| 0 <= q < |ds| && ds[q] == y;
        assert y !in plan.sub;
        LocalRel(j, x, m1, m2, plan.sub, locals, vs, s, q);
      } else {
        FreeHelperName(j, x, y);
        OutsideRel(j, x, m2, s, |m1.st.heap|, y);
      }
    }
  }

  // ----- guards and tail -----

  lemma {:induction false} GuardsStep(body: seq<Stmt>)
    requires body != [] && IsGuard(body[0])
    ensures var guards := LeadingGuards(body);
      guards == [body[0].c] + LeadingGuards(body[1..]) && body[|guards|..] == body[1..][|guards| - 1..]
  {
  }

  /** Parts of a body: its leading guards, and the rest. */
  lemma {:induction false} BodyNames(body: seq<Stmt>)
    ensures var guards := LeadingGuards(body);
      var tail := body[|guards|..];
      && ArgNames(guards) <= FreeStmts(body) && ArgWrites(guards) <= WritesStmts(body)
      && FreeStmts(tail) <= FreeStmts(body) && WritesStmts(tail) <= WritesStmts(body)
      && StmtsNames(tail) <= StmtsNames(body)
    decreases |body|
  {
    hide FreeBlock, WritesBlock;
    if body != [] && IsGuard(body[0]) {
      BodyNames(body[1..]);
      GuardsStep(body);
      var guards := LeadingGuards(body);
      assert guards[1..] == LeadingGuards(body[1..]);
    } else {
      assert body[0..] == body;
    }
  }

  lemma {:induction false} BodyShapes(body: seq<Stmt>, scope: set<string>, g: string)
    ensures var guards := LeadingGuards(body);
      var tail := body[|guards|..];
      && (CallsNone(body, g) ==> CallsNone(tail, g))
      && (WellFormedStmts(body, scope) ==> WellFormedStmts(tail, scope) && AllShaped(guards))
    decreases |body|
  {
    hide WellFormedBlock;
    if body != [] && IsGuard(body[0]) {
      BodyShapes(body[1..], scope, g);
      GuardsStep(body);
      if WellFormedStmts(body, scope) {
        assert WellFormedStmt(body[0], scope);
        assert Shaped(body[0].c);
        assert forall e :: e in LeadingGuards(body) ==> e == body[0].c || e in LeadingGuards(body[1..]);
      }
    } else {
      assert body[0..] == body;
    }
  }

  lemma {:induction false} GuardsSim(w: World, guards: seq<Expr>, s: Sub, m: Mem, env: Env, env': Env, keep: set<nat>)
    requires Related(m) && Apart(m, keep) && EnvRel(s, m, env, env', ArgNames(guards))
    requires WritesRenamed(s, ArgWrites(guards))
    ensures var run, run' := RunGuards(w, guards, env, m.st), RunGuards(w, SubArgs(guards, s), env', m.st');
      run.out == run'.out && Evolves(m, Mem(m.b, run.end, run'.end), keep, {})
    decreases |guards|
  {
    hide Evolves, Related, EnvRel, Eval, Log, SubE, Names, Writes, Apart, SubArgs, ArgNames, ArgWrites;
    EvolvesRefl(m, keep, {});
    if guards != [] {
      var n := |guards| - 1;
      SplitLast(guards, s);
      SmallerEnvRel(s, m, env, env', ArgNames(guards), ArgNames(guards[..n]));
      GuardsSim(w, guards[..n], s, m, env, env', keep);
      var run, run' := RunGuards(w, guards[..n], env, m.st), RunGuards(w, SubArgs(guards[..n], s), env', m.st');
      var m1 := Mem(m.b, run.end, run'.end);
      RelatedAfter(m, m1, keep);
      EnvRelEvolves(s, m, m1, env, env', ArgNames(guards), keep, {});
      SmallerEnvRel(s, m1, env, env', ArgNames(guards), Names(guards[n]));
      EvalSim(w, guards[n], s, m1, env, env', keep);
      var m2 := Mem(m.b, Eval(w, guards[n], env, run.end).1, Eval(w, SubE(guards[n], s), env', run'.end).1);
      EvolvesTrans(m, m1, m2, keep, {}, keep, {}, keep, {});
    }
  }

  /** Related states meet unordered pairs alike. */
  lemma {:induction false} OrderedSim(w: World, e: Expr, s: Sub, m: Mem, env: Env, env': Env, keep: set<nat>)
    requires Related(m) && Apart(m, keep) && EnvRel(s, m, env, env', Names(e)) && WritesRenamed(s, Writes(e))
    ensures Ordered(w, e, env, m.st) <==> Ordered(w, SubE(e, s), env', m.st')
    decreases e, 1
  {
    hide Evolves, Related, Apart, NameRel;
    match e
    case Paren(e1) => OrderedSim(w, e1, s, m, env, env', keep);
    case Compare(_, l, r) => PairSim(w, e, l, r, s, m, env, env', keep);
    case And(l, r) => OrderedPairSim(w, e, l, r, s, m, env, env', keep);
    case Or(l, r) => OrderedPairSim(w, e, l, r, s, m, env, env', keep);
    case _ => OtherOrdered(w, e, s, env, env', m);
  }

  lemma {:induction false} OtherOrdered(w: World, e: Expr, s: Sub, env: Env, env': Env, m: Mem)
    requires !e.Paren? && !e.Compare? && !e.And? && !e.Or?
    ensures Ordered(w, e, env, m.st) && Ordered(w, SubE(e, s), env', m.st')
  {
  }

  lemma {:induction false} OrderedPairSim(w: World, whole: Expr, l: Expr, r: Expr, s: Sub, m: Mem, env: Env, env': Env,
    keep: set<nat>)
    requires l < whole && r < whole
    requires Related(m) && Apart(m, keep) && EnvRel(s, m, env, env', Names(l) + Names(r))
    requires WritesRenamed(s, Writes(l) + Writes(r))
    ensures Ordered(w, l, env, m.st) <==> Ordered(w, SubE(l, s), env', m.st')
    ensures var (a, st1) := Eval(w, l, env, m.st);
      var (a', st1') := Eval(w, SubE(l, s), env', m.st');
      a == a' && (Ordered(w, r, env, st1) <==> Ordered(w, SubE(r, s), env', st1'))
    decreases whole, 0
  {
    hide Evolves, Related, Apart, NameRel, Ordered;
    OrderedSim(w, l, s, m, env, env', keep);
    EvalSim(w, l, s, m, env, env', keep);
    var m1 := Mem(m.b, Eval(w, l, env, m.st).1, Eval(w, SubE(l, s), env', m.st').1);
    RelatedAfter(m, m1, keep);
    EnvRelEvolves(s, m, m1, env, env', Names(r), keep, {});
    OrderedSim(w, r, s, m1, env, env', keep);
  }

  lemma {:induction false} GuardsOrderedSim(w: World, guards: seq<Expr>, s: Sub, m: Mem, env: Env, env': Env,
    keep: set<nat>)
    requires Related(m) && Apart(m, keep) && EnvRel(s, m, env, env', ArgNames(guards))
    requires WritesRenamed(s, ArgWrites(guards))
    ensures GuardsOrdered(w, guards, env, m.st) <==> GuardsOrdered(w, SubArgs(guards, s), env', m.st')
    decreases |guards|
  {
    hide Evolves, Related, EnvRel, Eval, Log, SubE, Names, Writes, Apart, SubArgs, ArgNames, ArgWrites, RunGuards,
         Ordered;
    if guards == [] {
      NoGuards(s);
    } else {
      var n := |guards| - 1;
      SplitLast(guards, s);
      SameCount(guards, s);
      SmallerEnvRel(s, m, env, env', ArgNames(guards), ArgNames(guards[..n]));
      GuardsOrderedSim(w, guards[..n], s, m, env, env', keep);
      GuardsSim(w, guards[..n], s, m, env, env', keep);
      var run, run' := RunGuards(w, guards[..n], env, m.st), RunGuards(w, SubArgs(guards[..n], s), env', m.st');
      var m1 := Mem(m.b, run.end, run'.end);
      RelatedAfter(m, m1, keep);
      EnvRelEvolves(s, m, m1, env, env', ArgNames(guards), keep, {});
      SmallerEnvRel(s, m1, env, env', ArgNames(guards), Names(guards[n]));
      OrderedSim(w, guards[n], s, m1, env, env', keep);
    }
  }

  lemma {:induction false} NoGuards(s: Sub)
    ensures SubArgs([], s) == []
  {
  }

  lemma {:induction false} SameCount(es: seq<Expr>, s: Sub)
    ensures |SubArgs(es, s)| == |es|
  {
    SubArgsAt(es, s);
  }

  lemma {:induction false} SplitLast(guards: seq<Expr>, s: Sub)
    requires guards != []
    ensures var n := |guards| - 1;
      && SubArgs(guards, s)[n] == SubE(guards[n], s) && SubArgs(guards, s)[..n] == SubArgs(guards[..n], s)
      && ArgNames(guards) == ArgNames(guards[..n]) + Names(guards[n])
      && ArgWrites(guards) == ArgWrites(guards[..n]) + Writes(guards[n])
  {
    var n := |guards| - 1;
    SubArgsAt(guards, s);
    SubArgsAt(guards[..n], s);
    ArgsAppend(guards[..n], guards[n]);
    assert guards == guards[..n] + [guards[n]];
  }

  lemma {:induction false} ArgsAppend(es: seq<Expr>, e: Expr)
    ensures ArgNames(es + [e]) == ArgNames(es) + Names(e)
    ensures ArgWrites(es + [e]) == ArgWrites(es) + Writes(e)
  {
    if es == [] {
      assert [] + [e] == [e];
    } else {
      assert (es + [e])[1..] == es[1..] + [e];
      ArgsAppend(es[1..], e);
    }
  }

  lemma {:induction false} SmallerEnvRel(s: Sub, m: Mem, env: Env, env': Env, names: set<string>, some: set<string>)
    requires EnvRel(s, m, env, env', names) && some <= names
    ensures EnvRel(s, m, env, env', some)
  {
  }

  /** The helper's tail, as code to be run under its substitution. */
  lemma {:induction false} TailOk(j: Job, x3: Ctx)
    requires Good(j) && x3.co.None? && x3.scope == Elements(j.c.f.params) + Elements(Declared(j.c.tail))
    requires x3.s.Keys <= x3.scope && NoCapture(x3.s, j.c.tail)
    requires forall y :: y in x3.s && y in Elements(Declared(j.c.tail)) ==> x3.s[y].ToVar?
    ensures StmtsOk(j, x3, j.c.tail) && DeclsRenamed(x3.s, j.c.tail) && NoEscape(j.c.tail, false)
  {
    Facts(j);
    var body := j.c.f.body;
    BodyNames(body);
    BodyShapes(body, x3.scope, j.c.f.name);
    assert WellFormedFun(j.c.f);
    assert forall y :: y in WritesStmts(j.c.tail) ==> y in WritesBlock(body) || y in Elements(Declared(j.c.tail));
  }

  ghost predicate DeclsRenamed(s: Sub, ss: seq<Stmt>) {
    forall y :: y in s && y in Declared(ss) ==> s[y].ToVar?
  }

  /** Calling the helper in the original program. */
  lemma {:induction false} InvokeHelper(j: Job, vs: seq<Value>, st: State, fuel: nat)
    requires Good(j)
    ensures Invoke(j.Before(), j.c.f, vs, st, fuel) ==
      ExecStmts(j.Before(), j.c.f.body, HelperEnv(j, |st.heap|),
                st.(heap := st.heap + (ParamCells(|j.c.f.params|, vs) + EmptyCells(|Declared(j.c.tail)|))), fuel)
  {
    Facts(j);
    hide Good, ExecStmts;
    var k := |j.c.f.params|;
    assert (st.heap + ParamCells(k, vs)) + EmptyCells(|Declared(j.c.tail)|)
        == st.heap + (ParamCells(k, vs) + EmptyCells(|Declared(j.c.tail)|));
  }

  /** An ordered call of the helper: its guards are, and so is the rest of its body. */
  lemma {:induction false} HelperOrdered(j: Job, vs: seq<Value>, st: State, fuel: nat)
    requires Good(j) && InvokeOrdered(j.Before(), j.c, j.c.f, vs, st, fuel)
    ensures var env := HelperEnv(j, |st.heap|);
      var st1 := st.(heap := st.heap + (ParamCells(|j.c.f.params|, vs) + EmptyCells(|Declared(j.c.tail)|)));
      StmtsOrdered(j.Before(), j.c, j.c.f.body, env, st1, fuel) && GuardsOrdered(j.w, j.c.guards, env, st1)
  {
    Facts(j);
    hide Good, StmtsOrdered, GuardsOrdered;
    var k := |j.c.f.params|;
    assert (st.heap + ParamCells(k, vs)) + EmptyCells(|Declared(j.c.tail)|)
        == st.heap + (ParamCells(k, vs) + EmptyCells(|Declared(j.c.tail)|));
  }

  /** Cells that the original allocated on entry, matched only once the inlined
      program has entered its guarded block. */
  lemma {:induction false} LateCells(m1: Mem, m2: Mem, m3: Mem, pick: Inj, cs': seq<Option<Value>>, keep: set<nat>,
    own: set<nat>) returns (m4: Mem)
    requires Evolves(m1, m2, keep, own) && Evolves(m2, m3, keep, {}) && m3.b == m2.b && Apart(m3, keep)
    requires forall l :: l in pick ==> |m1.st.heap| <= l < |m2.st.heap| && l !in m2.b && m2.st.heap[l] == None
    requires forall l :: l in pick ==>
          |m3.st'.heap| <= pick[l] < |m3.st'.heap| + |cs'| && cs'[pick[l] - |m3.st'.heap|] == None
    requires forall l, q :: l in pick && q in pick && pick[l] == pick[q] ==> l == q
    ensures m4 == Mem(m3.b + pick, m3.st, m3.st'.(heap := m3.st'.heap + cs'))
    ensures Evolves(m1, m4, keep, own) && Apart(m4, keep)
  {
    var h' := m3.st'.heap + cs';
    var b4 := m3.b + pick;
    m4 := Mem(b4, m3.st, m3.st'.(heap := h'));
    EvolvesTrans(m1, m2, m3, keep, own, keep, own, keep, {});
    LateRelated(m2, m3, pick, cs', keep, h');
    forall l, q | l in b4 && q in b4 && b4[l] == b4[q] ensures l == q {
      PickedApart(m3.b, pick, l, q);
    }
  }

  lemma {:induction false} LateRelated(m2: Mem, m3: Mem, pick: Inj, cs': seq<Option<Value>>, keep: set<nat>,
    h': seq<Option<Value>>)
    requires Evolves(m2, m3, keep, {}) && m3.b == m2.b && Apart(m3, keep) && h' == m3.st'.heap + cs'
    requires forall l :: l in pick ==> l < |m2.st.heap| && l !in m2.b && m2.st.heap[l] == None
    requires forall l :: l in pick ==>
          |m3.st'.heap| <= pick[l] < |m3.st'.heap| + |cs'| && cs'[pick[l] - |m3.st'.heap|] == None
    ensures var b4 := m3.b + pick;
      forall l :: l in b4 ==> l < |m3.st.heap| && b4[l] < |h'| && m3.st.heap[l] == h'[b4[l]] && b4[l] !in keep
  {
    var b4 := m3.b + pick;
    forall l | l in b4 ensures l < |m3.st.heap| && b4[l] < |h'| && m3.st.heap[l] == h'[b4[l]] && b4[l] !in keep {
      if l in pick {
        assert m3.st.heap[l] == m2.st.heap[l];
      }
    }
  }

  // ----- arriving at a call site -----

  /** At a call site the callee is the helper, and the plan's names are free cells. */
  lemma {:induction false} SiteKnown(j: Job, x: Ctx, s: Stmt, taken: set<string>)
    requires Good(j) && StmtOk(j, x, s) && DynOk(j, x) && IsSite(x.co, s)
    requires forall y :: y in SiteNames(j.c, s.args, taken) ==> y in x.env'
    ensures s.g !in x.env && FindFun(j.p.funs, s.g) == Some(j.c.f)
    ensures |s.args| <= |j.c.f.params| && CandidateNames(j.c)
    ensures PlanKnown(j, x, SitePlan(j.c, s.args, taken), s.args)
    ensures x.s == map[] && x.co == Some(j.c)
  {
    Facts(j);
    FindUnique(j.p.funs, j.c.f);
    BindAt(j.p.globals, 0, map[]);
    PlanSubstitutes(j.c, s.args, 0, taken);
    assert j.c.f.params[0..] == j.c.f.params;
  }

  /** The plan's names, one for each cell of the helper that has a counterpart. */
  lemma {:induction false} PlanApart(c: Candidate, args: seq<Expr>, taken: set<string>, locals: seq<string>)
    requires CandidateNames(c) && (locals == [] || locals == SiteRenames(c, args, taken).1)
    ensures var plan := SitePlan(c, args, taken);
      NamesApart(c, plan.sub, locals, plan.added + locals)
  {
    var plan := SitePlan(c, args, taken);
    PlanSubstitutes(c, args, 0, taken);
    RenameNames(Declared(c.tail), taken + Elements(plan.added));
    forall i: nat | CellName(c, plan.sub, locals, i).Some?
      ensures CellName(c, plan.sub, locals, i).value in plan.added + locals
    {
    }
    forall i: nat, k: nat | CellName(c, plan.sub, locals, i).Some?
        && CellName(c, plan.sub, locals, i) == CellName(c, plan.sub, locals, k)
      ensures i == k
    {
      CellNameUnique(c, plan, locals, i, k);
    }
  }

  lemma {:induction false} CellNameWhere(c: Candidate, plan: Plan, locals: seq<string>, i: nat)
    requires forall a :: a in plan.sub && plan.sub[a].ToVar? ==> plan.sub[a].t in plan.added
    requires CellName(c, plan.sub, locals, i).Some?
    ensures var y := CellName(c, plan.sub, locals, i).value;
      if i < |c.f.params| then y in Elements(plan.added) else y in Elements(locals) && y == locals[i - |c.f.params|]
  {
  }

  lemma {:induction false} CellNameUnique(c: Candidate, plan: Plan, locals: seq<string>, i: nat, k: nat)
    requires NoDup(c.f.params) && NoDup(locals) && Elements(locals) !! Elements(plan.added)
    requires forall a :: a in plan.sub && plan.sub[a].ToVar? ==> plan.sub[a].t in plan.added
    requires forall a, b :: a in plan.sub && b in plan.sub && plan.sub[a].ToVar? && plan.sub[a] == plan.sub[b] ==>
          a == b
    requires CellName(c, plan.sub, locals, i).Some?
    requires CellName(c, plan.sub, locals, i) == CellName(c, plan.sub, locals, k)
    ensures i == k
  {
    var n := |c.f.params|;
    var y := CellName(c, plan.sub, locals, i).value;
    CellNameWhere(c, plan, locals, i);
    CellNameWhere(c, plan, locals, k);
    if i < n && k < n {
      var a, b := c.f.params[i], c.f.params[k];
      assert plan.sub[a] == ToVar(y) && plan.sub[b] == ToVar(y);
    }
  }

  // ----- the guarded form -----

  /** The condition put in place of the guards, under the helper's substitution. */
  lemma {:induction false} SubstitutedCondition(w: World, c: Candidate, sub: Sub, env: Env, st: State)
    requires c.guards != [] && AllShaped(c.guards) && GuardsOrdered(w, SubArgs(c.guards, sub), env, st)
    ensures var run := RunGuards(w, SubArgs(c.guards, sub), env, st);
      var (o, st1) := Eval(w, Condition(c.guards, sub), env, st);
      && st1 == run.end
      && (if run.out.Norm? then o.Norm? && Truthy(o.v) == !Truthy(run.out.v) else o == run.out)
  {
    var guards := SubArgs(c.guards, sub);
    SubArgsAt(c.guards, sub);
    forall g | g in guards ensures Shaped(g) {
      var i :| 0 <= i < |guards| && guards[i] == g;
      assert c.guards[i] in c.guards;
      SubShape(c.guards[i], sub);
    }
    InvertedGuardsSound(w, guards, env, st);
  }

  lemma {:induction false} IfStep(m: Machine, c: Expr, a: seq<Stmt>, env: Env, st: State, fuel: nat)
    ensures ExecStmts(m, [If(c, a, [])], env, st, fuel) ==
      var (o, st1) := Eval(m.w, c, env, st);
      if o.Thrown? then (Throws(o.error), st1)
      else if Truthy(o.v) then ExecBlock(m, a, env, st1, fuel)
      else (Normal, st1)
  {
    hide Eval, ExecBlock;
    var (o, st1) := Eval(m.w, c, env, st);
    GuardBlocks(m, env, st1, fuel);
    HeadStep(m, If(c, a, []), [], env, st, fuel);
    assert [If(c, a, [])] + [] == [If(c, a, [])];
  }

  /** Guards read no local of the tail, and write no parameter. */
  lemma {:induction false} GuardNames(j: Job)
    requires Good(j)
    ensures ArgNames(j.c.guards) <= FreeStmts(j.c.f.body) && ArgNames(j.c.guards) !! Elements(Declared(j.c.tail))
    ensures forall y :: y in ArgWrites(j.c.guards) ==> y !in j.c.f.params
    ensures AllShaped(j.c.guards)
  {
    Facts(j);
    BodyNames(j.c.f.body);
    BodyShapes(j.c.f.body, Elements(j.c.f.params) + Elements(Declared(j.c.f.body)), j.c.f.name);
    assert WellFormedFun(j.c.f);
    assert forall y :: y in ArgWrites(j.c.guards) ==> y in WritesBlock(j.c.f.body) || y in Elements(Declared(j.c.tail));
    assert forall y :: y in j.c.f.params ==> y in Elements(j.c.f.params);
  }

  /** Entering the guarded block of the inlined program. */
  lemma {:induction false} GuardedTailEnv(j: Job, x: Ctx, m1: Mem, m2: Mem, m3: Mem, m4: Mem, sub: Sub, vs: seq<Value>,
    env3': Env)
    requires Good(j) && Entered(j, x, m1, m2, sub, [], vs) && Evolves(m2, m3, x.keep, {}) && m3.b == m2.b
    requires sub.Keys <= Elements(j.c.f.params) && NoCaptureBlock(sub, j.c.tail)
    requires EnvRel(sub, m2, HelperEnv(j, |m1.st.heap|), x.env', FreeStmts(j.c.tail) - Elements(Declared(j.c.tail)))
    requires env3' == Bind(Declared(j.c.tail), |m3.st'.heap|, x.env')
    requires m4.b == m3.b + PickNames(Declared(j.c.tail), |m1.st.heap| + |j.c.f.params|, env3') && m4.st == m3.st
    requires forall l :: l in m3.b ==> l !in PickNames(Declared(j.c.tail), |m1.st.heap| + |j.c.f.params|, env3')
    ensures EnvRel(sub, m4, HelperEnv(j, |m1.st.heap|), env3', FreeStmts(j.c.tail))
  {
    hide Good, Evolves, Entered, HelperEnv, NameRel, FreeStmts, Bind, Declared, PickNames, StmtsNames;
    Facts(j);
    var ds, env, at := Declared(j.c.tail), HelperEnv(j, |m1.st.heap|), |m1.st.heap| + |j.c.f.params|;
    HelperEnvAt(j, |m1.st.heap|);
    BindAt(ds, |m3.st'.heap|, x.env');
    DeclaredAreNames(j.c.f.body);
    EnvRelEvolves(sub, m2, m3, env, x.env', FreeStmts(j.c.tail) - Elements(ds), x.keep, {});
    forall y | y in FreeStmts(j.c.tail) ensures NameRel(sub, m4, env, env3', y) {
      if y in Elements(ds) {
        var q :| 0 <= q < |ds| && ds[q] == y;
        LateNew(sub, m3, m4, ds, at, q, env, env3');
      } else {
        assert y in FreeStmts(j.c.tail) - Elements(ds);
        assert NameRel(sub, m3, env, x.env', y);
        assert Renamed(y, sub) !in Elements(ds);
        if y in sub {
          assert y in Elements(j.c.f.params);
          var q :| 0 <= q < |j.c.f.params| && j.c.f.params[q] == y;
          assert env[y] == |m1.st.heap| + q;
        }
        LateOld(sub, m3, m4, ds, at, env, x.env', env3', y);
      }
    }
  }

  lemma {:induction false} LateNew(sub: Sub, m3: Mem, m4: Mem, ds: seq<string>, at: nat, q: nat, env: Env, env3': Env)
    requires q < |ds| && ds[q] !in sub && ds[q] in env && env[ds[q]] == at + q && ds[q] in env3'
    requires m4.b == m3.b + PickNames(ds, at, env3')
    ensures NameRel(sub, m4, env, env3', ds[q])
  {
    assert at + q in PickNames(ds, at, env3');
  }

  lemma {:induction false} LateOld(sub: Sub, m3: Mem, m4: Mem, ds: seq<string>, at: nat, env: Env, env': Env,
    env3': Env, y: string)
    requires NameRel(sub, m3, env, env', y) && m4.st == m3.st
    requires m4.b == m3.b + PickNames(ds, at, env3')
    requires forall l :: l in m3.b ==> l !in PickNames(ds, at, env3')
    requires y in sub ==> y in env && env[y] < at
    requires var r := Renamed(y, sub); (r in env' <==> r in env3') && (r in env' ==> env'[r] == env3'[r])
    ensures NameRel(sub, m4, env, env3', y)
  {
  }
}
