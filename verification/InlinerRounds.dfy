/**
 The rewritten module is well-formed source again, so `inlineFile` can go round:
 each round removes one function, and clean rounds keep the module's meaning.
 And what happens when a round is not clean.
 */
module InlinerRounds {
  import opened Basics
  import opened Expressions
  import opened GuardText
  import opened GuardInversion
  import opened Programs
  import opened Inliner
  import opened InlinerAnalysis
  import opened InlinerMemory
  import opened InlinerNames
  import opened InlinerOrder
  import opened InlinerSim
  import opened InlinerSite
  import opened InlinerTheorems

  // ----- rewritten code is well-formed -----

  function Callees(ss: seq<Stmt>): set<string> {
    if ss == [] then {} else CalleesOf(ss[0]) + Callees(ss[1..])
  }

  function CalleesOf(s: Stmt): set<string> {
    match s
    case If(_, a, b) => Callees(a) + Callees(b)
    case While(_, b) => Callees(b)
    case Call(g, _) => {g}
    case _ => {}
  }

  /** A callee is a name taken from outside: it is free, and no scope declares it. */
  lemma {:induction false} CalleesFree(ss: seq<Stmt>, scope: set<string>)
    requires WellFormedStmts(ss, scope)
    ensures Callees(ss) <= FreeStmts(ss) && Callees(ss) !! scope
    decreases ss, 0
  {
    if ss != [] {
      var s := ss[0];
      match s {
        case If(_, a, b) =>
          CalleesFreeBlock(a, scope);
          CalleesFreeBlock(b, scope);
        case While(_, b) => CalleesFreeBlock(b, scope);
        case _ =>
      }
      CalleesFree(ss[1..], scope);
    }
  }

  lemma {:induction false} CalleesFreeBlock(ss: seq<Stmt>, scope: set<string>)
    requires WellFormedBlock(ss, scope)
    ensures Callees(ss) <= FreeBlock(ss) && Callees(ss) !! scope
    decreases ss, 1
  {
    CalleesFree(ss, scope + Elements(Declared(ss)));
  }

  lemma {:induction false} SubArgsShaped(es: seq<Expr>, s: Sub)
    requires AllShaped(es)
    ensures AllShaped(SubArgs(es, s))
  {
    SubArgsAt(es, s);
    forall e | e in SubArgs(es, s) ensures Shaped(e) {
      var i :| 0 <= i < |es| && SubArgs(es, s)[i] == e;
      assert es[i] in es;
      SubShape(es[i], s);
    }
  }

  lemma {:induction false} WellFormedAppend(a: seq<Stmt>, b: seq<Stmt>, scope: set<string>)
    requires WellFormedStmts(a, scope) && WellFormedStmts(b, scope)
    ensures WellFormedStmts(a + b, scope)
    decreases |a|
  {
    if a == [] {
      assert a + b == b;
    } else {
      assert (a + b)[1..] == a[1..] + b;
      WellFormedAppend(a[1..], b, scope);
    }
  }

  /** Helper code, moved into another scope. */
  lemma {:induction false} MovedStmts(ss: seq<Stmt>, s: Sub, taken: set<string>, scope: set<string>,
    scope': set<string>)
    requires WellFormedStmts(ss, scope) && Callees(ss) !! scope'
    ensures WellFormedStmts(RewriteStmts(None, ss, s, taken), scope')
    decreases ss, 1
  {
    if ss != [] {
      MovedStmt(ss[0], s, scope, scope');
      MovedStmts(ss[1..], s, taken, scope, scope');
      var code := RewriteStmts(None, ss, s, taken);
      assert code[1..] == RewriteStmts(None, ss[1..], s, taken);
    }
  }

  lemma {:induction false} MovedStmt(st: Stmt, s: Sub, scope: set<string>, scope': set<string>)
    requires WellFormedStmt(st, scope) && CalleesOf(st) !! scope'
    ensures WellFormedStmt(RewriteStmt(None, st, s), scope')
    decreases st, 0
  {
    match st
    case ExprS(e) => SubShape(e, s);
    case Decl(_, e) => SubShape(e, s);
    case If(c, a, b) =>
      SubShape(c, s);
      MovedBlock(a, s, scope, scope');
      MovedBlock(b, s, scope, scope');
    case While(c, b) =>
      SubShape(c, s);
      MovedBlock(b, s, scope, scope');
    case Call(_, args) => SubArgsShaped(args, s);
    case Jump(_) =>
  }

  lemma {:induction false} MovedBlock(ss: seq<Stmt>, s: Sub, scope: set<string>, scope': set<string>)
    requires WellFormedBlock(ss, scope) && Callees(ss) !! scope'
    ensures WellFormedBlock(RewriteBlock(None, ss, s), scope')
    decreases ss, 2
  {
    var ds := Declared(ss);
    BlockDeclared(ss, s - Elements(ds));
    CalleesFree(ss, scope + Elements(ds));
    MovedStmts(ss, s - Elements(ds), StmtsNames(ss), scope + Elements(ds), scope' + Elements(ds));
  }

  lemma {:induction false} BlockDeclared(ss: seq<Stmt>, s: Sub)
    requires s.Keys !! Elements(Declared(ss))
    ensures Declared(RewriteStmts(None, ss, s, StmtsNames(ss))) == Declared(ss)
  {
    DeclaredRenamed(ss, s, StmtsNames(ss));
    var ds, ds' := Declared(ss), Declared(RewriteStmts(None, ss, s, StmtsNames(ss)));
    forall q | 0 <= q < |ds| ensures ds'[q] == ds[q] {
      assert ds[q] in Elements(ds);
    }
  }

  lemma {:induction false} ConditionShaped(c: Candidate, sub: Sub)
    requires c.guards != [] && AllShaped(c.guards)
    ensures Shaped(Condition(c.guards, sub))
  {
    var guards := SubArgs(c.guards, sub);
    SubArgsShaped(c.guards, sub);
    CombineGuardsReadsBack(guards);
    if |guards| == 1 {
      NegateReadsBack(guards[0]);
    } else {
      JoinReadsBack(guards);
    }
  }

  lemma {:induction false} PlanShaped(c: Candidate, args: seq<Expr>, i: nat, taken: set<string>, scope: set<string>)
    requires i <= |c.f.params| && AllShaped(args)
    ensures WellFormedStmts(PlanFrom(c, args, i, taken).prefix, scope)
    decreases |c.f.params| - i
  {
    hide FreeBlock, FreshName;
    if i < |c.f.params| {
      var y := c.f.params[i];
      var taken1 := if c.Used(y) && i < |args| then taken + {FreshName(TEMP + y, taken)} else taken;
      PlanShaped(c, args, i + 1, taken1, scope);
      var rest := PlanFrom(c, args, i + 1, taken1).prefix;
      if i < |args| && PlanFrom(c, args, i, taken).prefix != rest {
        assert PlanFrom(c, args, i, taken).prefix[1..] == rest;
      }
    }
  }

  /** Where new names may appear: nowhere that code around them, or the helper, mentions. */
  ghost predicate ScopeGrown(j: Job, ss: seq<Stmt>, scope: set<string>, scope': set<string>) {
    forall y :: y in scope' && (y in StmtsNames(ss) || y in Outside(j.c.f)) ==> y in scope
  }

  /** The code put in place of a call site. */
  lemma {:induction false} SiteWellFormed(j: Job, s: Stmt, taken: set<string>, scope: set<string>, scope': set<string>)
    requires Good(j) && s.Call? && AllShaped(s.args) && Outside(j.c.f) !! scope
    requires forall y :: y in scope' && y in Outside(j.c.f) ==> y in scope
    ensures WellFormedStmts(SiteCode(j.c, s, taken), scope')
  {
    hide Good, RewriteStmts, RewriteBlock, Condition, PlanFrom, RenameLocals;
    Facts(j);
    HelperCallees(j);
    var body, ds := j.c.f.body, Declared(j.c.tail);
    var scopeT := Elements(j.c.f.params) + Elements(ds);
    var plan := SitePlan(j.c, s.args, taken);
    PlanShaped(j.c, s.args, 0, taken, scope');
    if j.c.guards == [] {
      var sub := plan.sub + SiteRenames(j.c, s.args, taken).0;
      MovedStmts(j.c.tail, sub, {}, scopeT, scope');
      WellFormedAppend(plan.prefix, RewriteStmts(None, j.c.tail, sub, {}), scope');
    } else {
      MovedBlockAt(j.c.tail, plan.sub, scopeT, scope');
      ConditionShaped(j.c, plan.sub);
      var guarded := If(Condition(j.c.guards, plan.sub), RewriteBlock(None, j.c.tail, plan.sub), []);
      assert WellFormedBlock([], scope');
      assert WellFormedStmt(guarded, scope');
      assert [guarded][1..] == [];
      WellFormedAppend(plan.prefix, [guarded], scope');
    }
  }

  lemma {:induction false} MovedBlockAt(ss: seq<Stmt>, s: Sub, scope: set<string>, scope': set<string>)
    requires NoDup(Declared(ss)) && Elements(Declared(ss)) <= scope && WellFormedStmts(ss, scope)
    requires Callees(ss) !! scope'
    ensures WellFormedBlock(RewriteBlock(None, ss, s), scope')
  {
    assert scope + Elements(Declared(ss)) == scope;
    MovedBlock(ss, s, scope, scope');
  }

  /** The helper's callees come from outside the helper. */
  lemma {:induction false} HelperCallees(j: Job)
    requires Good(j)
    ensures Callees(j.c.tail) <= Outside(j.c.f) && AllShaped(j.c.guards)
    ensures WellFormedStmts(j.c.tail, Elements(j.c.f.params) + Elements(Declared(j.c.tail)))
  {
    Facts(j);
    var body := j.c.f.body;
    var scope := Elements(j.c.f.params) + Elements(Declared(body));
    assert WellFormedFun(j.c.f);
    BodyNames(body);
    BodyShapes(body, scope, j.c.f.name);
    CalleesFree(j.c.tail, scope);
  }

  lemma {:induction false} RewrittenStmts(j: Job, ss: seq<Stmt>, taken: set<string>, scope: set<string>,
    scope': set<string>)
    requires Good(j) && WellFormedStmts(ss, scope) && CleanBelow(j.c, ss, scope) && CleanHere(j.c, ss, scope, taken)
    requires ScopeGrown(j, ss, scope, scope')
    ensures WellFormedStmts(RewriteStmts(Some(j.c), ss, map[], taken), scope')
    decreases ss, 1
  {
    hide Good, SiteCode, SiteNames;
    if ss != [] {
      if IsSite(Some(j.c), ss[0]) {
        SiteWellFormed(j, ss[0], taken, scope, scope');
        var taken1 := taken + Elements(SiteNames(j.c, ss[0].args, taken));
        RewrittenStmts(j, ss[1..], taken1, scope, scope');
        WellFormedAppend(SiteCode(j.c, ss[0], taken), RewriteStmts(Some(j.c), ss[1..], map[], taken1), scope');
      } else {
        RewrittenStmt(j, ss[0], scope, scope');
        RewrittenStmts(j, ss[1..], taken, scope, scope');
        var code := RewriteStmts(Some(j.c), ss, map[], taken);
        assert code[1..] == RewriteStmts(Some(j.c), ss[1..], map[], taken);
      }
    }
  }

  lemma {:induction false} RewrittenStmt(j: Job, s: Stmt, scope: set<string>, scope': set<string>)
    requires Good(j) && WellFormedStmt(s, scope) && CleanBelowStmt(j.c, s, scope)
    requires forall y :: y in scope' && (y in StmtNames(s) || y in Outside(j.c.f)) ==> y in scope
    ensures WellFormedStmt(RewriteStmt(Some(j.c), s, map[]), scope')
    decreases s, 0
  {
    hide Good;
    match s
    case ExprS(e) => SubShape(e, map[]);
    case Decl(_, e) => SubShape(e, map[]);
    case If(c, a, b) =>
      SubShape(c, map[]);
      RewrittenBlock(j, a, scope, scope');
      RewrittenBlock(j, b, scope, scope');
    case While(c, b) =>
      SubShape(c, map[]);
      RewrittenBlock(j, b, scope, scope');
    case Call(_, args) => SubArgsShaped(args, map[]);
    case Jump(_) =>
  }

  lemma {:induction false} RewrittenBlock(j: Job, ss: seq<Stmt>, scope: set<string>, scope': set<string>)
    requires Good(j) && WellFormedBlock(ss, scope) && CleanBlock(j.c, ss, scope)
    requires ScopeGrown(j, ss, scope, scope')
    ensures WellFormedBlock(RewriteBlock(Some(j.c), ss, map[]), scope')
    decreases ss, 2
  {
    hide Good;
    Facts(j);
    var ds, names := Declared(ss), NewNames(Some(j.c), ss, StmtsNames(ss));
    DeclaredRewrite(Some(j.c), ss, map[], StmtsNames(ss));
    NewNamesFresh(Some(j.c), ss, StmtsNames(ss));
    CleanNames(j.c, ss, scope + Elements(ds), StmtsNames(ss));
    var none: Sub := map[];
    assert none - Elements(ds) == map[];
    var ds' := Declared(RewriteStmts(Some(j.c), ss, map[], StmtsNames(ss)));
    RewrittenStmts(j, ss, StmtsNames(ss), scope + Elements(ds), scope' + Elements(ds'));
  }

  // ----- functions -----

  lemma {:induction false} RewrittenFuns(j: Job, funs: seq<Fun>)
    requires forall g :: g in funs ==> g in j.p.funs
    requires Good(j) && forall a, b :: 0 <= a < b < |funs| ==> funs[a].name != funs[b].name
    requires ParamsSpared(j.p, j.c)
    ensures var fs := RewriteFuns(j.c, funs);
      && (forall g :: g in fs ==> g.name !in j.p.globals && WellFormedFun(g))
      && (forall g :: g in fs ==> exists h :: h in funs && h.name == g.name)
      && (forall a, b :: 0 <= a < b < |fs| ==> fs[a].name != fs[b].name)
    decreases |funs|
  {
    hide Good, WellFormedFun, RewriteBlock, ParamsSpared;
    if funs != [] {
      assert forall g :: g in funs[1..] ==> g in funs;
      RewrittenFuns(j, funs[1..]);
      OneHelper(j, funs);
      if funs[0].name != j.c.f.name {
        RewrittenFun(j, funs[0]);
        var g := funs[0].(body := RewriteBlock(Some(j.c), funs[0].body, map[]));
        var rest := RewriteFuns(j.c, funs[1..]);
        forall h | h in rest ensures h.name != g.name {
          var k :| k in funs[1..] && k.name == h.name;
          var i :| 0 <= i < |funs[1..]| && funs[1..][i] == k;
          assert funs[i + 1] == k;
        }
        OneMore(g, rest, funs, j.p.globals);
      }
    }
  }

  lemma {:induction false} OneFewer(j: Job, funs: seq<Fun>)
    requires forall g :: g in funs ==> g in j.p.funs
    requires Good(j) && forall a, b :: 0 <= a < b < |funs| ==> funs[a].name != funs[b].name
    ensures |RewriteFuns(j.c, funs)| == (if j.c.f in funs then |funs| - 1 else |funs|)
    decreases |funs|
  {
    hide Good, RewriteBlock;
    if funs != [] {
      assert forall g :: g in funs[1..] ==> g in funs;
      OneFewer(j, funs[1..]);
      OneHelper(j, funs);
    }
  }

  lemma {:induction false} OneMore(g: Fun, rest: seq<Fun>, funs: seq<Fun>, globals: seq<string>)
    requires funs != [] && g.name == funs[0].name && g.name !in globals && WellFormedFun(g)
    requires forall h :: h in rest ==> h.name != g.name && h.name !in globals && WellFormedFun(h)
    requires forall h :: h in rest ==> exists k :: k in funs[1..] && k.name == h.name
    requires forall a, b :: 0 <= a < b < |rest| ==> rest[a].name != rest[b].name
    ensures var fs := [g] + rest;
      && (forall h :: h in fs ==> h.name !in globals && WellFormedFun(h))
      && (forall h :: h in fs ==> exists k :: k in funs && k.name == h.name)
      && (forall a, b :: 0 <= a < b < |fs| ==> fs[a].name != fs[b].name)
  {
    hide WellFormedFun;
    var fs := [g] + rest;
    forall h | h in fs ensures exists k :: k in funs && k.name == h.name {
      if h == g {
        assert funs[0] in funs;
      } else {
        var k :| k in funs[1..] && k.name == h.name;
        assert k in funs;
      }
    }
    forall a, b | 0 <= a < b < |fs| ensures fs[a].name != fs[b].name {
      assert fs[b] == rest[b - 1] && rest[b - 1] in rest;
    }
  }

  lemma {:induction false} HelperAmong(j: Job)
    requires Good(j)
    ensures j.c.f in j.p.funs
  {
  }

  /** Functions are told apart by their names. */
  lemma {:induction false} OneHelper(j: Job, funs: seq<Fun>)
    requires Good(j) && funs != [] && forall g :: g in funs ==> g in j.p.funs
    requires forall a, b :: 0 <= a < b < |funs| ==> funs[a].name != funs[b].name
    ensures funs[0].name == j.c.f.name ==> funs[0] == j.c.f && j.c.f !in funs[1..]
    ensures funs[0].name != j.c.f.name ==> (j.c.f in funs <==> j.c.f in funs[1..])
  {
    HelperAmong(j);
    assert funs[0] in j.p.funs;
    var a :| 0 <= a < |j.p.funs| && j.p.funs[a] == funs[0];
    var b :| 0 <= b < |j.p.funs| && j.p.funs[b] == j.c.f;
    if j.c.f in funs[1..] {
      var i :| 0 <= i < |funs[1..]| && funs[1..][i] == j.c.f;
      assert funs[i + 1] == j.c.f;
    }
  }

  lemma {:induction false} RewrittenFun(j: Job, h: Fun)
    requires Good(j) && h in j.p.funs && ParamsSpared(j.p, j.c)
    ensures var g := h.(body := RewriteBlock(Some(j.c), h.body, map[]));
      g.name !in j.p.globals && WellFormedFun(g)
  {
    Facts(j);
    assert Elements(NewNames(Some(j.c), h.body, StmtsNames(h.body))) !! Elements(h.params);
    hide Good, ParamsSpared;
    RewrittenBlock(j, h.body, Elements(h.params), Elements(h.params));
    DeclaredRewrite(Some(j.c), h.body, map[], StmtsNames(h.body));
    var none: Sub := map[];
    assert none - Elements(Declared(h.body)) == map[];
  }

  /** Parameters that meet an added name are declared twice. */
  lemma {:induction false} WellFormedSpares(j: Job, h: Fun)
    requires Good(j) && h in j.p.funs
    requires h.name != j.c.f.name ==> WellFormedFun(h.(body := RewriteBlock(Some(j.c), h.body, map[])))
    ensures Elements(NewNames(Some(j.c), h.body, StmtsNames(h.body))) !! Elements(h.params)
  {
    Facts(j);
    if h.name == j.c.f.name {
      assert h == j.c.f by { NamesTellApart(j, h); }
      NoCallsNoNames(j.c, h.body, StmtsNames(h.body));
      assert Elements<string>([]) == {};
    } else {
      DeclaredRewrite(Some(j.c), h.body, map[], StmtsNames(h.body));
      var none: Sub := map[];
      assert none - Elements(Declared(h.body)) == map[];
    }
  }

  lemma {:induction false} NamesTellApart(j: Job, h: Fun)
    requires Good(j) && h in j.p.funs && h.name == j.c.f.name
    ensures h == j.c.f
  {
    var a :| 0 <= a < |j.p.funs| && j.p.funs[a] == h;
    var b :| 0 <= b < |j.p.funs| && j.p.funs[b] == j.c.f;
  }

  lemma {:induction false} NoCallsNoNames(c: Candidate, ss: seq<Stmt>, taken: set<string>)
    requires CallsNone(ss, c.f.name)
    ensures NewNames(Some(c), ss, taken) == []
  {
    if ss != [] {
      NoCallsNoNames(c, ss[1..], taken);
    }
  }

  lemma {:induction false} RewrittenIn(c: Candidate, funs: seq<Fun>, h: Fun)
    requires h in funs && h.name != c.f.name
    ensures h.(body := RewriteBlock(Some(c), h.body, map[])) in RewriteFuns(c, funs)
  {
    hide RewriteBlock;
    if funs[0] != h {
      RewrittenIn(c, funs[1..], h);
    }
  }

  /** A clean round removes one function.  What it leaves is well-formed exactly when
      no added name meets a parameter of the function it is added to. */
  lemma {:induction false} InlinedIsWellFormed(j: Job)
    requires Good(j)
    ensures |InlineInto(j.p, j.c).funs| == |j.p.funs| - 1
    ensures WellFormed(InlineInto(j.p, j.c)) <==> ParamsSpared(j.p, j.c)
  {
    OneFewer(j, j.p.funs);
    if ParamsSpared(j.p, j.c) {
      RewrittenFuns(j, j.p.funs);
    }
    if WellFormed(InlineInto(j.p, j.c)) {
      hide Good, WellFormedFun, NewNames;
      forall h | h in j.p.funs ensures Elements(NewNames(Some(j.c), h.body, StmtsNames(h.body))) !! Elements(h.params) {
        if h.name != j.c.f.name {
          RewrittenIn(j.c, j.p.funs, h);
        }
        WellFormedSpares(j, h);
      }
    }
  }

  // ----- the whole loop -----

  const MAX_ROUNDS := 100_000

  /** The rounds of `inlineFile`: the first candidate in source order, again and again. */
  function Rounds(p: Program, maxStatements: nat, limit: nat): (Program, seq<string>)
    decreases limit
  {
    if limit == 0 then (p, [])
    else
      match FirstCandidate(p, 0, maxStatements)
      case None => (p, [])
      case Some(c) =>
        var (q, names) := Rounds(InlineInto(p, c), maxStatements, limit - 1);
        (q, [c.f.name] + names)
  }

  /** The candidate taken is the first function that may be inlined. */
  lemma {:induction false} TakenIsFirst(p: Program, k: nat, maxStatements: nat) returns (i: nat, n: nat)
    requires k <= |p.funs|
    ensures FirstCandidate(p, k, maxStatements).None? ==>
      forall j, m: nat :: k <= j < |p.funs| ==> !Inlinable(p, p.funs[j], m, maxStatements)
    ensures FirstCandidate(p, k, maxStatements).Some? ==>
      var c := FirstCandidate(p, k, maxStatements).value;
      && k <= i < |p.funs| && c.f == p.funs[i] && Inlinable(p, c.f, n, maxStatements) && SplitInto(c, c.f, n)
      && forall j, m: nat :: k <= j < i ==> !Inlinable(p, p.funs[j], m, maxStatements)
    decreases |p.funs| - k
  {
    hide Analyze, Inlinable, SplitInto;
    if k < |p.funs| {
      if Analyze(p, p.funs[k], maxStatements).Some? {
        i := k;
        n := AcceptedSplits(p, p.funs[k], maxStatements);
      } else {
        forall m ensures !Inlinable(p, p.funs[k], m, maxStatements) { AnalyzeExactly(p, p.funs[k], maxStatements, m); }
        i, n := TakenIsFirst(p, k + 1, maxStatements);
      }
    } else {
      i, n := k, 0;
    }
  }

  lemma {:induction false} AcceptedSplits(p: Program, f: Fun, maxStatements: nat) returns (n: nat)
    requires Analyze(p, f, maxStatements).Some?
    ensures var c := Analyze(p, f, maxStatements).value;
      c.f == f && Inlinable(p, f, n, maxStatements) && SplitInto(c, f, n)
  {
    hide Inlinable;
    n := |LeadingGuards(f.body)|;
    AnalyzeExactly(p, f, maxStatements, n);
  }

  /** The modules from round to round, none of it told from the rounds' own definition. */
  lemma {:induction false} RoundsTrace(p: Program, maxStatements: nat, limit: nat) returns (ps: seq<Program>)
    ensures var (q, inlined) := Rounds(p, maxStatements, limit);
      Trace(ps, inlined, maxStatements, limit) && ps[0] == p && ps[|inlined|] == q
    decreases limit
  {
    hide Inlinable, SplitInto, InlineInto, FirstCandidate;
    var inlined := Rounds(p, maxStatements, limit).1;
    var i, n := TakenIsFirst(p, 0, maxStatements);
    if limit > 0 && FirstCandidate(p, 0, maxStatements).Some? {
      var c := FirstCandidate(p, 0, maxStatements).value;
      var next := InlineInto(p, c);
      var rest := RoundsTrace(next, maxStatements, limit - 1);
      ps := [p] + rest;
      assert Round(p, next, c.f.name, maxStatements, c, i, n);
      TraceMore(p, rest, c.f.name, Rounds(next, maxStatements, limit - 1).1, maxStatements, limit);
    } else {
      ps := [p];
    }
  }

  lemma {:induction false} TraceMore(p: Program, ps: seq<Program>, name: string, inlined: seq<string>,
    maxStatements: nat, limit: nat)
    requires limit > 0 && Trace(ps, inlined, maxStatements, limit - 1) && OneRound(p, ps[0], name, maxStatements)
    ensures Trace([p] + ps, [name] + inlined, maxStatements, limit)
  {
    hide OneRound, NoneInlinable;
    forall i | 0 <= i < |inlined| + 1 ensures RoundAt([p] + ps, [name] + inlined, maxStatements, i) {
      if i > 0 { assert RoundAt(ps, inlined, maxStatements, i - 1); }
    }
  }

  method InlineRounds(p: Program, maxStatements: nat, limit: nat) returns (q: Program, inlined: seq<string>)
    ensures (q, inlined) == Rounds(p, maxStatements, limit)
    ensures exists ps :: Trace(ps, inlined, maxStatements, limit) && ps[0] == p && ps[|inlined|] == q
  {
    hide FirstCandidate, InlineInto, Rounds, Trace;
    ghost var ps := RoundsTrace(p, maxStatements, limit);
    q, inlined := p, [];
    var round: nat := 0;
    ghost var all := Rounds(p, maxStatements, limit);
    assert [] + all.1 == all.1;
    while round < limit
      invariant round <= limit
      invariant var rest := Rounds(q, maxStatements, limit - round); all == (rest.0, inlined + rest.1)
    {
      var candidate := FirstCandidate(q, 0, maxStatements);
      RoundsStep(q, maxStatements, limit - round);
      if candidate.None? {
        assert inlined + [] == inlined;
        return;
      }
      ghost var rest := Rounds(InlineInto(q, candidate.value), maxStatements, limit - round - 1);
      assert inlined + ([candidate.value.f.name] + rest.1) == (inlined + [candidate.value.f.name]) + rest.1;
      q := InlineInto(q, candidate.value);
      inlined := inlined + [candidate.value.f.name];
      round := round + 1;
    }
    RoundsStep(q, maxStatements, 0);
    assert inlined + [] == inlined;
  }

  lemma {:induction false} RoundsStep(p: Program, maxStatements: nat, limit: nat)
    ensures Rounds(p, maxStatements, limit) ==
      var next := FirstCandidate(p, 0, maxStatements);
      if limit == 0 || next.None? then (p, [])
      else
        var rest := Rounds(InlineInto(p, next.value), maxStatements, limit - 1);
        (rest.0, [next.value.f.name] + rest.1)
  {
  }

  method InlineFile(p: Program, maxStatements: nat) returns (q: Program, inlined: seq<string>)
    ensures (q, inlined) == Rounds(p, maxStatements, MAX_ROUNDS)
    ensures exists ps :: Trace(ps, inlined, maxStatements, MAX_ROUNDS) && ps[0] == p && ps[|inlined|] == q
  {
    q, inlined := InlineRounds(p, maxStatements, MAX_ROUNDS);
  }

  lemma {:induction false} CandidateInModule(p: Program, maxStatements: nat)
    requires FirstCandidate(p, 0, maxStatements).Some?
    ensures FirstCandidate(p, 0, maxStatements).value.f in p.funs
  {
  }

  lemma {:induction false} HelperRemoved(c: Candidate, funs: seq<Fun>)
    ensures |RewriteFuns(c, funs)| <= |funs| && (c.f in funs ==> |RewriteFuns(c, funs)| < |funs|)
  {
    if funs != [] {
      HelperRemoved(c, funs[1..]);
    }
  }

  /** Every round removes a function, so a module with no more functions than
      rounds allowed is left without candidates. */
  lemma {:induction false} RoundsEnd(p: Program, maxStatements: nat, limit: nat)
    ensures var (q, names) := Rounds(p, maxStatements, limit);
      |q.funs| + |names| <= |p.funs| && (|p.funs| <= limit ==> FirstCandidate(q, 0, maxStatements).None?)
    decreases limit
  {
    hide Analyze, RewriteFuns;
    if limit > 0 && FirstCandidate(p, 0, maxStatements).Some? {
      var c := FirstCandidate(p, 0, maxStatements).value;
      CandidateInModule(p, maxStatements);
      HelperRemoved(c, p.funs);
      RoundsEnd(InlineInto(p, c), maxStatements, limit - 1);
    } else if limit == 0 && |p.funs| == 0 {
      assert FirstCandidate(p, 0, maxStatements).None?;
    }
  }

  /** Every round is clean: no name it adds is captured or meets a parameter. */
  ghost predicate CleanRounds(p: Program, maxStatements: nat, limit: nat)
    decreases limit
  {
    limit == 0 || FirstCandidate(p, 0, maxStatements).None? ||
    var c := FirstCandidate(p, 0, maxStatements).value;
    && Hygienic(p, c) && ParamsSpared(p, c)
    && CleanRounds(InlineInto(p, c), maxStatements, limit - 1)
  }

  /** In every round, the run of one exported function flips no comparison of an unordered pair. */
  ghost predicate OrderedRounds(p: Program, w: World, maxStatements: nat, limit: nat, entry: string, vs: seq<Value>,
    st: State)
    decreases limit
  {
    limit == 0 || FirstCandidate(p, 0, maxStatements).None? ||
    var c := FirstCandidate(p, 0, maxStatements).value;
    && RunOrdered(p, w, c, entry, vs, st)
    && OrderedRounds(InlineInto(p, c), w, maxStatements, limit - 1, entry, vs, st)
  }

  lemma {:induction false} CleanNext(p: Program, maxStatements: nat, limit: nat)
    requires CleanRounds(p, maxStatements, limit) && limit > 0 && FirstCandidate(p, 0, maxStatements).Some?
    ensures var c := FirstCandidate(p, 0, maxStatements).value;
      && Hygienic(p, c) && ParamsSpared(p, c) && CleanRounds(InlineInto(p, c), maxStatements, limit - 1)
  {
  }

  lemma {:induction false} CandidateGood(p: Program, w: World, maxStatements: nat)
    requires WellFormed(p) && FirstCandidate(p, 0, maxStatements).Some?
    requires Hygienic(p, FirstCandidate(p, 0, maxStatements).value)
    ensures Good(Job(p, w, FirstCandidate(p, 0, maxStatements).value))
  {
    var c := FirstCandidate(p, 0, maxStatements).value;
    CandidateInModule(p, maxStatements);
    assert Analyze(p, c.f, maxStatements) == Some(c);
  }

  lemma {:induction false} ExportedStays(j: Job, entry: string)
    requires Good(j) && FindFun(j.p.funs, entry).Some? && FindFun(j.p.funs, entry).value.exported
    ensures FindFun(InlineInto(j.p, j.c).funs, entry).Some? && FindFun(InlineInto(j.p, j.c).funs, entry).value.exported
  {
    FindIn(j.p.funs, entry);
    GoodNames(j, FindFun(j.p.funs, entry).value);
    FindRewritten(j.c, j.p.funs, entry);
  }

  /** The whole of `inlineFile` keeps the meaning of the module. */
  lemma {:induction false} RoundsKeepMeaning(p: Program, w: World, maxStatements: nat, limit: nat,
                                             entry: string, vs: seq<Value>, st: State, v: Visible)
    requires WellFormed(p) && CleanRounds(p, maxStatements, limit)
    requires OrderedRounds(p, w, maxStatements, limit, entry, vs, st)
    requires FindFun(p.funs, entry).Some? && FindFun(p.funs, entry).value.exported
    ensures var q := Rounds(p, maxStatements, limit).0;
      WellFormed(q) && (Yields(p, w, entry, vs, st, v) <==> Yields(q, w, entry, vs, st, v))
    decreases limit
  {
    hide Good, Yields, WellFormed, Hygienic, RunOrdered, ParamsSpared, FirstCandidate, FindFun, InlineInto, Rounds,
         CleanRounds;
    RoundsStep(p, maxStatements, limit);
    if limit > 0 && FirstCandidate(p, 0, maxStatements).Some? {
      var j := Job(p, w, FirstCandidate(p, 0, maxStatements).value);
      CleanNext(p, maxStatements, limit);
      CandidateGood(p, w, maxStatements);
      InlinedIsWellFormed(j);
      ExportedStays(j, entry);
      InliningPreservesMeaning(j, entry, vs, st, v);
      RoundsKeepMeaning(InlineInto(p, j.c), w, maxStatements, limit - 1, entry, vs, st, v);
    }
  }
}
