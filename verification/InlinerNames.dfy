/**
 Facts about names, lists and shapes the simulation of the inliner rests on.
 */
module InlinerNames {
  import opened Basics
  import opened Expressions
  import opened GuardText
  import opened GuardInversion
  import opened Programs
  import opened Inliner

  // ----- declared names -----

  lemma {:induction false} DeclaredAppend(a: seq<Stmt>, b: seq<Stmt>)
    ensures Declared(a + b) == Declared(a) + Declared(b)
  {
    if a == [] {
      assert a + b == b;
    } else {
      assert (a + b)[1..] == a[1..] + b;
      DeclaredAppend(a[1..], b);
    }
  }

  lemma {:induction false} DeclaredCons(s: Stmt, rest: seq<Stmt>)
    ensures Declared([s] + rest) == (if s.Decl? then [s.x] else []) + Declared(rest)
  {
    assert ([s] + rest)[1..] == rest;
  }

  lemma {:induction false} DeclaredAreNames(ss: seq<Stmt>)
    ensures Elements(Declared(ss)) <= StmtsNames(ss)
    ensures Elements(Declared(ss)) <= LocalsStmts(ss)
  {
    if ss != [] {
      DeclaredAreNames(ss[1..]);
    }
  }

  lemma {:induction false} FreeAreNames(ss: seq<Stmt>)
    ensures FreeStmts(ss) <= StmtsNames(ss)
  {
    if ss != [] {
      FreeStmtAreNames(ss[0]);
      FreeAreNames(ss[1..]);
    }
  }

  lemma {:induction false} FreeStmtAreNames(s: Stmt)
    ensures FreeStmt(s) <= StmtNames(s)
  {
    match s
    case If(_, a, b) =>
      FreeAreNames(a);
      FreeAreNames(b);
    case While(_, b) => FreeAreNames(b);
    case _ =>
  }

  /** Temporaries are new, pairwise distinct, and are what the prefix declares. */
  lemma {:induction false} PlanNames(c: Candidate, args: seq<Expr>, i: nat, taken: set<string>)
    requires i <= |c.f.params|
    ensures var plan := PlanFrom(c, args, i, taken);
      && Declared(plan.prefix) == plan.added
      && NoDup(plan.added) && Elements(plan.added) !! taken
      && plan.sub.Keys <= Elements(c.f.params[i..])
      && (forall x :: x in plan.sub && plan.sub[x].ToVar? ==> plan.sub[x].t in plan.added)
    decreases |c.f.params| - i
  {
    if i < |c.f.params| {
      var x := c.f.params[i];
      var tail := c.f.params[i..];
      assert x in tail && forall y :: y in c.f.params[i + 1..] ==> y in tail;
      var temp := FreshName(TEMP + x, taken);
      PlanNames(c, args, i + 1, taken);
      PlanNames(c, args, i + 1, taken + {temp});
      var plan := PlanFrom(c, args, i, taken);
      if c.Used(x) && i < |args| {
        var rest := PlanFrom(c, args, i + 1, taken + {temp});
        assert plan.prefix[1..] == rest.prefix;
        PrependNoDup(temp, rest.added);
      } else if plan.prefix != [] && plan.prefix[0].ExprS? {
        assert plan.prefix[1..] == PlanFrom(c, args, i + 1, taken).prefix
          || plan.prefix == PlanFrom(c, args, i + 1, taken).prefix;
      }
    }
  }

  lemma {:induction false} PrependNoDup<T>(x: T, xs: seq<T>)
    requires NoDup(xs) && x !in xs
    ensures NoDup([x] + xs) && Elements([x] + xs) == {x} + Elements(xs)
  {
  }

  lemma {:induction false} AppendNoDup<T>(xs: seq<T>, ys: seq<T>)
    requires NoDup(xs) && NoDup(ys) && Elements(xs) !! Elements(ys)
    ensures NoDup(xs + ys) && Elements(xs + ys) == Elements(xs) + Elements(ys)
  {
    forall i, j | 0 <= i < j < |xs + ys| ensures (xs + ys)[i] != (xs + ys)[j] {
      if i < |xs| <= j {
        assert xs[i] in Elements(xs) && ys[j - |xs|] in Elements(ys);
      }
    }
  }

  lemma {:induction false} RenameNames(ds: seq<string>, taken: set<string>)
    requires NoDup(ds)
    ensures var (ren, names) := RenameLocals(ds, taken);
      && NoDup(names) && Elements(names) !! taken
      && ren.Keys <= Elements(ds) && (forall x :: x in ren ==> ren[x].ToVar? && ren[x].t in names)
      && (forall q :: 0 <= q < |ds| ==> names[q] == Renamed(ds[q], ren))
    decreases |ds|
  {
    if ds != [] {
      var (ren, names) := RenameLocals(ds, taken);
      var other := names[0];
      RenameNames(ds[1..], taken + {other});
      var rest := RenameLocals(ds[1..], taken + {other});
      PrependNoDup(other, rest.1);
      assert forall q :: 1 <= q < |ds| ==> ds[q] == ds[1..][q - 1];
      forall q | 0 <= q < |ds| ensures names[q] == Renamed(ds[q], ren) {
        if q > 0 {
          assert ds[q] != ds[0];
        } else {
          assert ds[0] !in ds[1..];
        }
      }
    }
  }

  /** Without call sites, rewriting only renames what is declared. */
  lemma {:induction false} DeclaredRenamed(ss: seq<Stmt>, s: Sub, taken: set<string>)
    ensures var ds, ds' := Declared(ss), Declared(RewriteStmts(None, ss, s, taken));
      |ds'| == |ds| && forall q :: 0 <= q < |ds| ==> ds'[q] == Renamed(ds[q], s)
  {
    if ss != [] {
      DeclaredRenamed(ss[1..], s, taken);
      var head := RewriteStmt(None, ss[0], s);
      DeclaredCons(head, RewriteStmts(None, ss[1..], s, taken));
      DeclaredCons(ss[0], ss[1..]);
      assert ss == [ss[0]] + ss[1..];
    }
  }

  /** What a candidate looks like, as far as naming needs it. */
  ghost predicate CandidateNames(c: Candidate) {
    && NoDup(c.f.params) && NoDup(Declared(c.tail))
    && Elements(c.f.params) !! Elements(Declared(c.tail))
  }

  lemma {:induction false} SiteDeclares(c: Candidate, s: Stmt, taken: set<string>)
    requires s.Call? && CandidateNames(c)
    ensures var names := SiteNames(c, s.args, taken);
      Declared(SiteCode(c, s, taken)) == names && NoDup(names) && Elements(names) !! taken
  {
    var plan := SitePlan(c, s.args, taken);
    PlanNames(c, s.args, 0, taken);
    assert c.f.params[0..] == c.f.params;
    if c.guards == [] {
      var (ren, locals) := SiteRenames(c, s.args, taken);
      var ds := Declared(c.tail);
      RenameNames(ds, taken + Elements(plan.added));
      var code := RewriteStmts(None, c.tail, plan.sub + ren, {});
      DeclaredRenamed(c.tail, plan.sub + ren, {});
      DeclaredAppend(plan.prefix, code);
      forall q | 0 <= q < |ds| ensures Declared(code)[q] == locals[q] {
        assert ds[q] in Elements(ds);
        assert ds[q] !in plan.sub;
      }
      assert Declared(code) == locals;
      AppendNoDup(plan.added, locals);
    } else {
      DeclaredAppend(plan.prefix, SiteCode(c, s, taken)[|plan.prefix|..]);
      assert SiteNames(c, s.args, taken) == plan.added;
    }
  }

  lemma {:induction false} NewNamesFresh(co: Option<Candidate>, ss: seq<Stmt>, taken: set<string>)
    requires co.Some? ==> CandidateNames(co.value)
    ensures NoDup(NewNames(co, ss, taken)) && Elements(NewNames(co, ss, taken)) !! taken
    decreases |ss|
  {
    if ss != [] {
      if IsSite(co, ss[0]) {
        var names := SiteNames(co.value, ss[0].args, taken);
        SiteDeclares(co.value, ss[0], taken);
        NewNamesFresh(co, ss[1..], taken + Elements(names));
        AppendNoDup(names, NewNames(co, ss[1..], taken + Elements(names)));
      } else {
        NewNamesFresh(co, ss[1..], taken);
      }
    }
  }

  /** One more statement of the original, which declares at most one name. */
  lemma {:induction false} KeepOne(head: seq<string>, ds: seq<string>, ds': seq<string>, new': seq<string>)
    requires |head| <= 1 && NoDup(head + ds) && NoDup(ds')
    requires Elements(ds') == Elements(ds) + Elements(new') && Elements(head) !! Elements(new')
    ensures NoDup(head + ds') && Elements(head + ds') == Elements(head + ds) + Elements(new')
  {
    if head != [] {
      var x := head[0];
      forall y | y in ds ensures y != x {
        var i :| 0 <= i < |ds| && ds[i] == y;
        assert (head + ds)[i + 1] == y && (head + ds)[0] == x;
      }
      assert x in Elements(head);
      assert x !in Elements(ds');
      assert head == [x];
      PrependNoDup(x, ds');
    } else {
      assert head + ds' == ds' && head + ds == ds;
    }
  }

  lemma {:induction false} DropHead(head: seq<string>, ds: seq<string>)
    requires NoDup(head + ds)
    ensures NoDup(ds) && Elements(ds) <= Elements(head + ds)
  {
    assert forall i :: 0 <= i < |ds| ==> ds[i] == (head + ds)[|head| + i];
  }

  /** At clean call sites no added name is one the helper takes from outside. */
  lemma {:induction false} CleanNames(c: Candidate, ss: seq<Stmt>, scope: set<string>, taken: set<string>)
    requires CleanHere(c, ss, scope, taken)
    ensures Elements(NewNames(Some(c), ss, taken)) !! Outside(c.f)
    decreases |ss|
  {
    hide SiteNames, Outside, SiteSub, NoCapture, NoCaptureBlock;
    if ss != [] {
      if IsSite(Some(c), ss[0]) {
        CleanNames(c, ss[1..], scope, taken + Elements(SiteNames(c, ss[0].args, taken)));
      } else {
        CleanNames(c, ss[1..], scope, taken);
      }
    }
  }

  /** Nothing is captured where nothing is substituted. */
  lemma {:induction false} NoSubNoCapture(ss: seq<Stmt>)
    ensures NoCapture(map[], ss)
    decreases ss, 0
  {
    if ss != [] {
      NoSubNoCaptureStmt(ss[0]);
      NoSubNoCapture(ss[1..]);
    }
  }

  lemma {:induction false} NoSubNoCaptureStmt(s: Stmt)
    ensures NoCaptureStmt(map[], s)
    decreases s, 0
  {
    var none: Sub := map[];
    match s
    case If(_, a, b) =>
      NoSubNoCapture(a);
      NoSubNoCapture(b);
      assert none - Elements(Declared(a)) == none && none - Elements(Declared(b)) == none;
    case While(_, b) =>
      NoSubNoCapture(b);
      assert none - Elements(Declared(b)) == none;
    case _ =>
  }

  lemma {:induction false} NoSubNoCaptureBlock(ss: seq<Stmt>)
    ensures NoCaptureBlock(map[], ss)
  {
    var none: Sub := map[];
    NoSubNoCapture(ss);
    assert none - Elements(Declared(ss)) == none;
  }

  /** A rewritten block declares what it declared before and the new names, each once. */
  lemma {:induction false} DeclaredRewrite(co: Option<Candidate>, ss: seq<Stmt>, s: Sub, taken: set<string>)
    requires co.Some? ==> CandidateNames(co.value) && StmtsNames(ss) <= taken
    requires NoDup(Declared(ss)) && s.Keys !! Elements(Declared(ss))
    ensures var ds' := Declared(RewriteStmts(co, ss, s, taken));
      NoDup(ds') && Elements(ds') == Elements(Declared(ss)) + Elements(NewNames(co, ss, taken))
    decreases |ss|
  {
    if ss != [] {
      if IsSite(co, ss[0]) {
        SiteDeclared(co, ss, s, taken);
      } else {
        KeptDeclares(co, ss, s, taken);
      }
    }
  }

  lemma {:induction false} SiteDeclared(co: Option<Candidate>, ss: seq<Stmt>, s: Sub, taken: set<string>)
    requires ss != [] && IsSite(co, ss[0])
    requires CandidateNames(co.value) && StmtsNames(ss) <= taken
    requires NoDup(Declared(ss)) && s.Keys !! Elements(Declared(ss))
    ensures var ds' := Declared(RewriteStmts(co, ss, s, taken));
      NoDup(ds') && Elements(ds') == Elements(Declared(ss)) + Elements(NewNames(co, ss, taken))
    decreases |ss|, 0
  {
    hide SiteNames, SiteCode, NoDup, CandidateNames;
    var rest := ss[1..];
    DeclaredAreNames(rest);
    assert Declared(ss) == Declared(rest);
    var names := SiteNames(co.value, ss[0].args, taken);
    var taken1 := taken + Elements(names);
    SiteDeclares(co.value, ss[0], taken);
    DeclaredRewrite(co, rest, s, taken1);
    NewNamesFresh(co, rest, taken1);
    var code := RewriteStmts(co, rest, s, taken1);
    DeclaredAppend(SiteCode(co.value, ss[0], taken), code);
    AppendNoDup(names, Declared(code));
    AppendNoDup(names, NewNames(co, rest, taken1));
  }

  lemma {:induction false} KeptDeclares(co: Option<Candidate>, ss: seq<Stmt>, s: Sub, taken: set<string>)
    requires ss != [] && !IsSite(co, ss[0])
    requires co.Some? ==> CandidateNames(co.value) && StmtsNames(ss) <= taken
    requires NoDup(Declared(ss)) && s.Keys !! Elements(Declared(ss))
    ensures var ds' := Declared(RewriteStmts(co, ss, s, taken));
      NoDup(ds') && Elements(ds') == Elements(Declared(ss)) + Elements(NewNames(co, ss, taken))
    decreases |ss|, 0
  {
    hide SiteNames, SiteCode, NoDup;
    var rest := ss[1..];
    var head := if ss[0].Decl? then [ss[0].x] else [];
    DropHead(head, Declared(rest));
    DeclaredRewrite(co, rest, s, taken);
    NewNamesFresh(co, rest, taken);
    NoSitesNoNames(rest, taken);
    DeclaredCons(RewriteStmt(co, ss[0], s), RewriteStmts(co, rest, s, taken));
    assert ss[0].Decl? ==> ss[0].x in Elements(Declared(ss)) by {
      if ss[0].Decl? {
        assert Declared(ss)[0] == ss[0].x;
      }
    }
    KeepOne(head, Declared(rest), Declared(RewriteStmts(co, rest, s, taken)), NewNames(co, rest, taken));
  }

  lemma {:induction false} NoSitesNoNames(ss: seq<Stmt>, taken: set<string>)
    ensures NewNames(None, ss, taken) == []
  {
    if ss != [] {
      NoSitesNoNames(ss[1..], taken);
    }
  }

  // ----- functions of the rewritten module -----

  lemma {:induction false} FindRewritten(c: Candidate, funs: seq<Fun>, g: string)
    requires g != c.f.name
    ensures FindFun(RewriteFuns(c, funs), g) ==
      match FindFun(funs, g)
      case None => None
      case Some(h) => Some(h.(body := RewriteBlock(Some(c), h.body, map[])))
  {
    if funs != [] {
      FindRewritten(c, funs[1..], g);
      if funs[0].name != c.f.name {
        assert RewriteFuns(c, funs)[1..] == RewriteFuns(c, funs[1..]);
      }
    }
  }

  lemma {:induction false} FindIn(funs: seq<Fun>, g: string)
    ensures FindFun(funs, g).Some? ==> FindFun(funs, g).value in funs && FindFun(funs, g).value.name == g
    ensures FindFun(funs, g).None? ==> forall h :: h in funs ==> h.name != g
  {
    if funs != [] {
      FindIn(funs[1..], g);
    }
  }

  lemma {:induction false} FindUnique(funs: seq<Fun>, f: Fun)
    requires f in funs && forall i, j :: 0 <= i < j < |funs| ==> funs[i].name != funs[j].name
    ensures FindFun(funs, f.name) == Some(f)
  {
    if funs[0].name == f.name {
      var i :| 0 <= i < |funs| && funs[i] == f;
      assert i == 0;
    } else {
      assert f in funs[1..];
      assert forall i, j :: 0 <= i < j < |funs[1..]| ==> funs[1..][i].name != funs[1..][j].name;
      FindUnique(funs[1..], f);
    }
  }

  // ----- execution -----

  lemma {:induction false} ExecAppend(m: Machine, a: seq<Stmt>, b: seq<Stmt>, env: Env, st: State, fuel: nat)
    ensures ExecStmts(m, a + b, env, st, fuel) ==
      var r := ExecStmts(m, a, env, st, fuel);
      if r.0 == Normal then ExecStmts(m, b, env, r.1, fuel) else r
    decreases |a|
  {
    if a == [] {
      assert a + b == b;
    } else {
      assert (a + b)[1..] == a[1..] + b;
      var (k, st1) := ExecStmt(m, a[0], env, st, fuel);
      ExecAppend(m, a[1..], b, env, st1, fuel);
    }
  }

  lemma {:induction false} HeadStep(m: Machine, s: Stmt, rest: seq<Stmt>, env: Env, st: State, fuel: nat)
    ensures ExecStmts(m, [s] + rest, env, st, fuel) ==
      var r := ExecStmt(m, s, env, st, fuel);
      if r.0 == Normal then ExecStmts(m, rest, env, r.1, fuel) else r
  {
    assert ([s] + rest)[1..] == rest;
  }

  /** A tail that does not escape ends normally, by an error, or not at all. */
  lemma {:induction false} NoEscapeStmts(m: Machine, ss: seq<Stmt>, env: Env, st: State, fuel: nat, inLoop: bool)
    requires NoEscape(ss, inLoop)
    ensures var k := ExecStmts(m, ss, env, st, fuel).0; k.Jumped? ==> k.kind != Return && inLoop
    decreases fuel, ss, 0
  {
    if ss != [] {
      NoEscapeOne(m, ss[0], env, st, fuel, inLoop);
      NoEscapeStmts(m, ss[1..], env, ExecStmt(m, ss[0], env, st, fuel).1, fuel, inLoop);
    }
  }

  lemma {:induction false} NoEscapeBlock(m: Machine, ss: seq<Stmt>, env: Env, st: State, fuel: nat, inLoop: bool)
    requires NoEscape(ss, inLoop)
    ensures var k := ExecBlock(m, ss, env, st, fuel).0; k.Jumped? ==> k.kind != Return && inLoop
    decreases fuel, ss, 1
  {
    var ds := Declared(ss);
    NoEscapeStmts(m, ss, Bind(ds, |st.heap|, env), st.(heap := st.heap + EmptyCells(|ds|)), fuel, inLoop);
  }

  lemma {:induction false} NoEscapeOne(m: Machine, s: Stmt, env: Env, st: State, fuel: nat, inLoop: bool)
    requires NoEscapeStmt(s, inLoop)
    ensures var k := ExecStmt(m, s, env, st, fuel).0; k.Jumped? ==> k.kind != Return && inLoop
    decreases fuel, s, 0
  {
    match s
    case If(c, a, b) =>
      var (o, st1) := Eval(m.w, c, env, st);
      if o.Norm? {
        if Truthy(o.v) {
          NoEscapeBlock(m, a, env, st1, fuel, inLoop);
        } else {
          NoEscapeBlock(m, b, env, st1, fuel, inLoop);
        }
      }
    case While(c, body) =>
      var (o, st1) := Eval(m.w, c, env, st);
      if fuel > 0 && o.Norm? && Truthy(o.v) {
        NoEscapeBlock(m, body, env, st1, fuel, true);
        NoEscapeOne(m, s, env, ExecBlock(m, body, env, st1, fuel).1, fuel - 1, inLoop);
      }
    case _ =>
  }

  // ----- guards -----

  lemma {:induction false} SubShape(e: Expr, s: Sub)
    requires Shaped(e)
    ensures Shaped(SubE(e, s)) && Level(SubE(e, s)) == Level(e)
  {
    match e
    case Lit(_, _) =>
    case Var(_, _) =>
    case Op(_, _, l, r) =>
      SubShape(l, s);
      SubShape(r, s);
    case Paren(e1) => SubShape(e1, s);
    case Not(e1) => SubShape(e1, s);
    case Compare(_, l, r) =>
      SubShape(l, s);
      SubShape(r, s);
    case And(l, r) =>
      SubShape(l, s);
      SubShape(r, s);
    case Or(l, r) =>
      SubShape(l, s);
      SubShape(r, s);
    case Assign(_, e1) => SubShape(e1, s);
  }

  lemma {:induction false} SubArgsAt(es: seq<Expr>, s: Sub)
    ensures forall i :: 0 <= i < |es| ==> SubArgs(es, s)[i] == SubE(es[i], s)
  {
    if es != [] {
      SubArgsAt(es[1..], s);
    }
  }

  lemma {:induction false} SafeFlipsOrdered(w: World, e: Expr, env: Env, st: State)
    requires FlipsNoOrdering(e)
    ensures Ordered(w, e, env, st)
  {
    match e
    case Paren(e1) => SafeFlipsOrdered(w, e1, env, st);
    case And(l, r) =>
      SafeFlipsOrdered(w, l, env, st);
      SafeFlipsOrdered(w, r, env, Eval(w, l, env, st).1);
    case Or(l, r) =>
      SafeFlipsOrdered(w, l, env, st);
      SafeFlipsOrdered(w, r, env, Eval(w, l, env, st).1);
    case _ =>
  }

  lemma {:induction false} SafeGuardsOrdered(w: World, guards: seq<Expr>, env: Env, st: State)
    requires forall g :: g in guards ==> FlipsNoOrdering(g)
    ensures GuardsOrdered(w, guards, env, st)
    decreases |guards|
  {
    if guards != [] {
      var n := |guards| - 1;
      SafeGuardsOrdered(w, guards[..n], env, st);
      SafeFlipsOrdered(w, guards[n], env, RunGuards(w, guards[..n], env, st).end);
    }
  }

  /** Guards run from the front. */
  lemma {:induction false} RunGuardsFront(w: World, guards: seq<Expr>, env: Env, st: State)
    requires guards != []
    ensures var first := RunOf(w, guards[0], env, st);
      var run := RunGuards(w, guards, env, st);
      var rest := RunGuards(w, guards[1..], env, first.end);
      if first.out.Thrown? then run.out == first.out && run.end == first.end
      else if Truthy(first.out.v) then run.out == Norm(Bool(true)) && run.end == first.end
      else run.out == rest.out && run.end == rest.end
    decreases |guards|
  {
    var n := |guards| - 1;
    if n == 0 {
      OneGuard(w, guards[0], env, st);
      assert guards == [guards[0]];
    } else {
      RunGuardsFront(w, guards[..n], env, st);
      assert guards[..n][1..] == guards[1..][..n - 1];
      assert guards[1..][n - 1] == guards[n];
    }
  }

  /** A body whose leading guards run, and then the rest. */
  lemma {:induction false} BodyRunsGuards(m: Machine, body: seq<Stmt>, env: Env, st: State, fuel: nat)
    ensures var guards := LeadingGuards(body);
      var run := RunGuards(m.w, guards, env, st);
      ExecStmts(m, body, env, st, fuel) ==
        if run.out.Thrown? then (Throws(run.out.error), run.end)
        else if Truthy(run.out.v) then (Jumped(Return), run.end)
        else ExecStmts(m, body[|guards|..], env, run.end, fuel)
    decreases |body|
  {
    var guards := LeadingGuards(body);
    if guards == [] {
      assert body[0..] == body;
    } else {
      RunGuardsFront(m.w, guards, env, st);
      assert guards[1..] == LeadingGuards(body[1..]);
      var (o, st1) := Eval(m.w, body[0].c, env, st);
      assert body[1..][|guards| - 1..] == body[|guards|..];
      BodyRunsGuards(m, body[1..], env, st1, fuel);
      if o.Norm? {
        GuardBlocks(m, env, st1, fuel);
      }
    }
  }

  lemma {:induction false} GuardBlocks(m: Machine, env: Env, st: State, fuel: nat)
    ensures ExecBlock(m, [Jump(Return)], env, st, fuel) == (Jumped(Return), st)
    ensures ExecBlock(m, [], env, st, fuel) == (Normal, st)
  {
    assert Declared([Jump(Return)]) == [] && Declared([]) == [];
    assert st.heap + EmptyCells(0) == st.heap;
    assert ExecStmt(m, Jump(Return), env, st, fuel) == (Jumped(Return), st);
  }
}
