/**
 What each name in a helper's text refers to, before the helper is inlined and after.
 A round is clean exactly when no name changes what it refers to.
 */
module InlinerBinding {
  import opened Basics
  import opened Expressions
  import opened GuardText
  import opened Programs
  import opened Inliner
  import opened InlinerMemory
  import opened InlinerNames
  import opened InlinerOrder
  import opened InlinerSim
  import opened InlinerSite

  // ----- what a name refers to -----

  /**
   Beyond the blocks inside the tail: a local of the block put around the tail, a name added at the call site, a
   name declared around the call, or a global. A parameter without argument is gone, and one that is not read refers
   to nothing.
   */
  datatype Referent = Block(name: string) | Added(name: string) | Caller(name: string) | Global(name: string)
    | Gone | Unread

  /** The declarations around the code put in place of a call, innermost first. */
  datatype Around = Around(block: set<string>, added: set<string>, scope: set<string>) {
    function Find(y: string): Referent {
      if y in block then Block(y) else if y in added then Added(y) else if y in scope then Caller(y) else Global(y)
    }
  }

  /** What parameters and locals of the helper stand for; any other name is a global. */
  type Own = map<string, Referent>

  /** The innermost of the nested blocks that declares a name, or their number when none does. */
  function Level(y: string, inner: seq<set<string>>): (r: nat)
    ensures r <= |inner|
  {
    if inner == [] || y in inner[0] then 0 else 1 + Level(y, inner[1..])
  }

  function Meant(y: string, own: Own): Referent { if y in own then own[y] else Global(y) }

  /** A name, written `z` afterwards, is declared by the same nested block as before, or beyond them by what it
      stood for. */
  predicate Same(y: string, z: string, inner: seq<set<string>>, inner': seq<set<string>>, own: Own, at: Around) {
    if Level(y, inner) < |inner| then z == y && Level(z, inner') == Level(y, inner)
    else Level(z, inner') == |inner'| && at.Find(z) == Meant(y, own)
  }

  predicate IsGone(y: string, inner: seq<set<string>>, own: Own) { Level(y, inner) == |inner| && Meant(y, own).Gone? }

  predicate KeptE(e: Expr, e': Expr, inner: seq<set<string>>, inner': seq<set<string>>, own: Own, at: Around) {
    match e
    case Lit(_, _) => e'.Lit?
    case Var(_, y) => if IsGone(y, inner, own) then e'.Lit? else e'.Var? && Same(y, e'.x, inner, inner', own, at)
    case Op(_, _, l, r) => e'.Op? && KeptE(l, e'.l, inner, inner', own, at) && KeptE(r, e'.r, inner, inner', own, at)
    case Paren(e1) => e'.Paren? && KeptE(e1, e'.e, inner, inner', own, at)
    case Not(e1) => e'.Not? && KeptE(e1, e'.e, inner, inner', own, at)
    case Compare(_, l, r) => e'.Compare? && KeptE(l, e'.l, inner, inner', own, at)
      && KeptE(r, e'.r, inner, inner', own, at)
    case And(l, r) => e'.And? && KeptE(l, e'.l, inner, inner', own, at) && KeptE(r, e'.r, inner, inner', own, at)
    case Or(l, r) => e'.Or? && KeptE(l, e'.l, inner, inner', own, at) && KeptE(r, e'.r, inner, inner', own, at)
    case Assign(y, e1) => e'.Assign? && Same(y, e'.x, inner, inner', own, at) && KeptE(e1, e'.e, inner, inner', own, at)
  }

  predicate KeptArgs(es: seq<Expr>, es': seq<Expr>, inner: seq<set<string>>, inner': seq<set<string>>, own: Own,
    at: Around) {
    |es| == |es'| && forall i :: 0 <= i < |es| ==> KeptE(es[i], es'[i], inner, inner', own, at)
  }

  predicate KeptStmt(s: Stmt, s': Stmt, inner: seq<set<string>>, inner': seq<set<string>>, own: Own, at: Around)
    decreases s, 0
  {
    match s
    case ExprS(e) => s'.ExprS? && KeptE(e, s'.e, inner, inner', own, at)
    case Decl(y, e) => s'.Decl? && Same(y, s'.x, inner, inner', own, at) && KeptE(e, s'.e, inner, inner', own, at)
    case If(c, a, b) =>
      && s'.If? && KeptE(c, s'.c, inner, inner', own, at)
      && KeptBlock(a, s'.thn, inner, inner', own, at) && KeptBlock(b, s'.els, inner, inner', own, at)
    case While(c, b) => s'.While? && KeptE(c, s'.c, inner, inner', own, at)
      && KeptBlock(b, s'.body, inner, inner', own, at)
    case Call(g, args) => s'.Call? && Same(g, s'.g, inner, inner', own, at)
      && KeptArgs(args, s'.args, inner, inner', own, at)
    case Jump(_) => s' == s
  }

  predicate KeptStmts(ss: seq<Stmt>, ss': seq<Stmt>, inner: seq<set<string>>, inner': seq<set<string>>, own: Own,
    at: Around)
    decreases ss, 0
  {
    |ss| == |ss'|
    && (ss != [] ==>
          KeptStmt(ss[0], ss'[0], inner, inner', own, at) && KeptStmts(ss[1..], ss'[1..], inner, inner', own, at))
  }

  predicate KeptBlock(ss: seq<Stmt>, ss': seq<Stmt>, inner: seq<set<string>>, inner': seq<set<string>>, own: Own,
    at: Around)
    decreases ss, 1
  {
    KeptStmts(ss, ss', [Elements(Declared(ss))] + inner, [Elements(Declared(ss'))] + inner', own, at)
  }

  /** What a parameter or local stands for once a call is replaced. */
  function OwnAt(c: Candidate, args: seq<Expr>, taken: set<string>): Own {
    var s := SiteSub(c, args, taken);
    map y | y in Elements(c.f.params) + Elements(Declared(c.tail)) ::
      if y in s then (if s[y].ToVar? then Added(s[y].t) else Gone)
      else if y in c.f.params then Unread
      else if c.guards == [] then Added(y) else Block(y)
  }

  /** At one call site the guards and the tail refer to what they referred to. */
  predicate SiteKept(c: Candidate, args: seq<Expr>, scope: set<string>, taken: set<string>) {
    var own, s := OwnAt(c, args, taken), SiteSub(c, args, taken);
    var at := Around({}, Elements(SiteNames(c, args, taken)), scope);
    if c.guards == [] then KeptStmts(c.tail, RewriteStmts(None, c.tail, s, {}), [], [], own, at)
    else
      var tail := RewriteBlock(None, c.tail, s);
      KeptArgs(c.guards, SubArgs(c.guards, s), [], [], own, at)
      && KeptStmts(c.tail, tail, [], [], own, at.(block := Elements(Declared(tail))))
  }

  // ----- one name -----

  /** The name is kept where it occurs. */
  predicate Ok(y: string, s: Sub, inner: seq<set<string>>, own: Own, at: Around) {
    IsGone(y, inner, own) || Same(y, Renamed(y, s), inner, inner, own, at)
  }

  /** The substitution in force inside nested blocks leaves their names alone, and drops what is gone. */
  ghost predicate InForce(s: Sub, inner: seq<set<string>>, own: Own) {
    forall y :: && (y in s ==> Level(y, inner) == |inner|)
                && ((y in s && s[y].ToUndefined?) <==> IsGone(y, inner, own))
  }

  lemma {:induction false} InForceBelow(s: Sub, inner: seq<set<string>>, own: Own, ds: set<string>)
    requires InForce(s, inner, own)
    ensures InForce(s - ds, [ds] + inner, own)
  {
    forall y ensures (y in s - ds ==> Level(y, [ds] + inner) == |inner| + 1)
        && ((y in s - ds && (s - ds)[y].ToUndefined?) <==> IsGone(y, [ds] + inner, own))
    {
      LevelBelow(y, ds, inner);
      assert y in s ==> Level(y, inner) == |inner|;
      assert (y in s && s[y].ToUndefined?) <==> IsGone(y, inner, own);
    }
  }

  lemma {:induction false} LevelBelow(y: string, ds: set<string>, inner: seq<set<string>>)
    ensures Level(y, [ds] + inner) == if y in ds then 0 else 1 + Level(y, inner)
  {
    assert ([ds] + inner)[1..] == inner;
  }

  /** A name of a nested block is kept there; any other is if it is kept outside and not written like one of the
      block's. */
  lemma {:induction false} OkBelow(y: string, s: Sub, inner: seq<set<string>>, own: Own, at: Around, ds: set<string>)
    requires InForce(s, inner, own)
    ensures y in ds ==> Ok(y, s - ds, [ds] + inner, own, at)
    ensures y !in ds ==>
      (Ok(y, s - ds, [ds] + inner, own, at) <==> Ok(y, s, inner, own, at) && (y in s && s[y].ToVar? ==> s[y].t !in ds))
  {
    LevelBelow(y, ds, inner);
    LevelBelow(Renamed(y, s), ds, inner);
    assert y in s ==> Level(y, inner) == |inner|;
    assert (y in s && s[y].ToUndefined?) <==> IsGone(y, inner, own);
  }

  // ----- code -----

  ghost predicate AllOk(names: set<string>, s: Sub, inner: seq<set<string>>, own: Own, at: Around) {
    forall y :: y in names ==> Ok(y, s, inner, own, at)
  }

  lemma {:induction false} OkBoth(a: set<string>, b: set<string>, s: Sub, inner: seq<set<string>>, own: Own, at: Around)
    ensures AllOk(a + b, s, inner, own, at) <==> AllOk(a, s, inner, own, at) && AllOk(b, s, inner, own, at)
  {
    hide Ok;
    if AllOk(a + b, s, inner, own, at) {
      assert forall y :: y in a || y in b ==> y in a + b;
    }
  }

  lemma {:induction false} OkOne(y: string, s: Sub, inner: seq<set<string>>, own: Own, at: Around)
    ensures AllOk({y}, s, inner, own, at) <==> Ok(y, s, inner, own, at)
  {
    hide Ok;
    assert y in {y};
  }

  lemma {:induction false} KeptExpr(e: Expr, s: Sub, inner: seq<set<string>>, own: Own, at: Around)
    requires InForce(s, inner, own) && WritesRenamed(s, Writes(e))
    ensures KeptE(e, SubE(e, s), inner, inner, own, at) <==> AllOk(Names(e), s, inner, own, at)
    decreases e, 1
  {
    hide AllOk, InForce, Ok, Same, IsGone;
    match e
    case Lit(_, _) => NoNames(s, inner, own, at);
    case Var(_, y) => KeptVar(e, s, inner, own, at);
    case Assign(y, e1) =>
      KeptExpr(e1, s, inner, own, at);
      OkBoth({y}, Names(e1), s, inner, own, at);
      KeptWrite(y, s, inner, own, at);
    case Op(_, _, l, r) => KeptPair(e, l, r, s, inner, own, at);
    case Paren(e1) => KeptExpr(e1, s, inner, own, at);
    case Not(e1) => KeptExpr(e1, s, inner, own, at);
    case Compare(_, l, r) => KeptPair(e, l, r, s, inner, own, at);
    case And(l, r) => KeptPair(e, l, r, s, inner, own, at);
    case Or(l, r) => KeptPair(e, l, r, s, inner, own, at);
  }

  lemma {:induction false} NoNames(s: Sub, inner: seq<set<string>>, own: Own, at: Around)
    ensures AllOk({}, s, inner, own, at)
  {
  }

  lemma {:induction false} KeptPair(whole: Expr, l: Expr, r: Expr, s: Sub, inner: seq<set<string>>, own: Own,
    at: Around)
    requires l < whole && r < whole
    requires InForce(s, inner, own) && WritesRenamed(s, Writes(l) + Writes(r))
    ensures (KeptE(l, SubE(l, s), inner, inner, own, at) && KeptE(r, SubE(r, s), inner, inner, own, at))
       <==> AllOk(Names(l) + Names(r), s, inner, own, at)
    decreases whole, 0
  {
    hide AllOk, InForce;
    KeptExpr(l, s, inner, own, at);
    KeptExpr(r, s, inner, own, at);
    OkBoth(Names(l), Names(r), s, inner, own, at);
  }

  lemma {:induction false} KeptVar(e: Expr, s: Sub, inner: seq<set<string>>, own: Own, at: Around)
    requires e.Var? && InForce(s, inner, own)
    ensures KeptE(e, SubE(e, s), inner, inner, own, at) <==> AllOk({e.x}, s, inner, own, at)
  {
    hide Same, AllOk;
    OkOne(e.x, s, inner, own, at);
    assert (e.x in s && s[e.x].ToUndefined?) <==> IsGone(e.x, inner, own);
  }

  /** A name that is written or declared is not gone. */
  lemma {:induction false} KeptWrite(y: string, s: Sub, inner: seq<set<string>>, own: Own, at: Around)
    requires InForce(s, inner, own) && (y !in s || s[y].ToVar?)
    ensures Same(y, Renamed(y, s), inner, inner, own, at) <==> AllOk({y}, s, inner, own, at)
  {
    hide Same, AllOk;
    OkOne(y, s, inner, own, at);
    assert (y in s && s[y].ToUndefined?) <==> IsGone(y, inner, own);
  }

  lemma {:induction false} KeptList(es: seq<Expr>, s: Sub, inner: seq<set<string>>, own: Own, at: Around)
    requires InForce(s, inner, own) && WritesRenamed(s, ArgWrites(es))
    ensures KeptArgs(es, SubArgs(es, s), inner, inner, own, at) <==> AllOk(ArgNames(es), s, inner, own, at)
  {
    hide AllOk, InForce, KeptE, SubE, Names, Writes;
    if es == [] {
      NoNames(s, inner, own, at);
    } else {
      var es' := SubArgs(es, s);
      KeptExpr(es[0], s, inner, own, at);
      KeptList(es[1..], s, inner, own, at);
      OkBoth(Names(es[0]), ArgNames(es[1..]), s, inner, own, at);
      assert es'[0] == SubE(es[0], s) && es'[1..] == SubArgs(es[1..], s);
      KeptFirst(es, es', inner, own, at);
    }
  }

  lemma {:induction false} KeptFirst(es: seq<Expr>, es': seq<Expr>, inner: seq<set<string>>, own: Own, at: Around)
    requires es != [] && |es| == |es'|
    ensures KeptArgs(es, es', inner, inner, own, at)
       <==> KeptE(es[0], es'[0], inner, inner, own, at) && KeptArgs(es[1..], es'[1..], inner, inner, own, at)
  {
    hide KeptE;
    if KeptE(es[0], es'[0], inner, inner, own, at) && KeptArgs(es[1..], es'[1..], inner, inner, own, at) {
      forall i | 0 <= i < |es| ensures KeptE(es[i], es'[i], inner, inner, own, at) {
        if i > 0 { assert es[i] == es[1..][i - 1] && es'[i] == es'[1..][i - 1]; }
      }
    }
    if KeptArgs(es, es', inner, inner, own, at) {
      forall i | 0 <= i < |es| - 1 ensures KeptE(es[1..][i], es'[1..][i], inner, inner, own, at) {
        assert es[1..][i] == es[i + 1] && es'[1..][i] == es'[i + 1];
      }
    }
  }

  /** Well-formed code in which no name that is written or declared is substituted by `undefined`. */
  ghost predicate Fit(ss: seq<Stmt>, s: Sub, scope: set<string>) {
    && WellFormedStmts(ss, scope) && s.Keys <= scope && WritesRenamed(s, WritesStmts(ss))
    && forall y :: y in Declared(ss) ==> y !in s || s[y].ToVar?
  }

  ghost predicate FitStmt(st: Stmt, s: Sub, scope: set<string>) {
    && WellFormedStmt(st, scope) && s.Keys <= scope && WritesRenamed(s, WritesStmt(st))
    && (st.Decl? ==> st.x !in s || s[st.x].ToVar?)
  }

  lemma {:induction false} FitParts(ss: seq<Stmt>, s: Sub, scope: set<string>)
    requires ss != [] && Fit(ss, s, scope)
    ensures FitStmt(ss[0], s, scope) && Fit(ss[1..], s, scope)
  {
    assert forall y :: y in Declared(ss[1..]) ==> y in Declared(ss);
    assert ss[0].Decl? ==> ss[0].x in Declared(ss);
  }

  lemma {:induction false} FitBelow(b: seq<Stmt>, s: Sub, scope: set<string>)
    requires WellFormedBlock(b, scope) && s.Keys <= scope && WritesRenamed(s, WritesBlock(b))
    ensures Fit(b, s - Elements(Declared(b)), scope + Elements(Declared(b)))
  {
    var ds := Elements(Declared(b));
    forall y | y in WritesStmts(b) ensures y !in s - ds || (s - ds)[y].ToVar? {
      if y !in ds { assert y in WritesBlock(b); }
    }
    assert forall y :: y in Declared(b) ==> y in ds;
  }

  lemma {:induction false} KeptCode(ss: seq<Stmt>, s: Sub, taken: set<string>, scope: set<string>,
    inner: seq<set<string>>, own: Own, at: Around)
    requires InForce(s, inner, own) && Fit(ss, s, scope)
    ensures KeptStmts(ss, RewriteStmts(None, ss, s, taken), inner, inner, own, at)
       <==> AllOk(FreeStmts(ss), s, inner, own, at) && NoCapture(s, ss)
    decreases ss, 0
  {
    hide AllOk, InForce, Fit, FitStmt, KeptStmt, RewriteStmt, FreeStmt, NoCaptureStmt;
    if ss == [] {
      NoNames(s, inner, own, at);
    } else {
      var rest := RewriteStmts(None, ss[1..], s, taken);
      FitParts(ss, s, scope);
      KeptOne(ss[0], s, scope, inner, own, at);
      KeptCode(ss[1..], s, taken, scope, inner, own, at);
      OkBoth(FreeStmt(ss[0]), FreeStmts(ss[1..]), s, inner, own, at);
      assert ([RewriteStmt(None, ss[0], s)] + rest)[1..] == rest;
    }
  }

  lemma {:induction false} KeptInner(b: seq<Stmt>, s: Sub, scope: set<string>, inner: seq<set<string>>, own: Own,
    at: Around)
    requires InForce(s, inner, own) && WellFormedBlock(b, scope) && s.Keys <= scope && WritesRenamed(s, WritesBlock(b))
    ensures KeptBlock(b, RewriteBlock(None, b, s), inner, inner, own, at)
       <==> AllOk(FreeBlock(b), s, inner, own, at) && NoCaptureBlock(s, b)
    decreases b, 2
  {
    hide InForce, Fit, Ok, NoCapture, KeptStmts, RewriteStmts, Declared, FreeStmts;
    var ds := Elements(Declared(b));
    FitBelow(b, s, scope);
    InForceBelow(s, inner, own, ds);
    KeptCode(b, s - ds, StmtsNames(b), scope + ds, [ds] + inner, own, at);
    SameDeclared(b, s);
    forall y | y in FreeStmts(b)
      ensures y in ds ==> Ok(y, s - ds, [ds] + inner, own, at)
      ensures y !in ds ==>
        (Ok(y, s - ds, [ds] + inner, own, at) <==> Ok(y, s, inner, own, at) && (y in s && s[y].ToVar? ==> s[y].t !in ds))
    {
      OkBelow(y, s, inner, own, at, ds);
    }
    assert forall y :: y in FreeBlock(b) <==> y in FreeStmts(b) && y !in ds;
  }

  /** A rewritten block declares what it declared. */
  lemma {:induction false} SameDeclared(b: seq<Stmt>, s: Sub)
    ensures Declared(RewriteBlock(None, b, s)) == Declared(b)
  {
    var ds := Declared(b);
    DeclaredRenamed(b, s - Elements(ds), StmtsNames(b));
    var ds' := Declared(RewriteBlock(None, b, s));
    forall q | 0 <= q < |ds| ensures ds'[q] == ds[q] {
      assert ds[q] in Elements(ds);
    }
  }

  lemma {:induction false} KeptOne(st: Stmt, s: Sub, scope: set<string>, inner: seq<set<string>>, own: Own, at: Around)
    requires InForce(s, inner, own) && FitStmt(st, s, scope)
    ensures KeptStmt(st, RewriteStmt(None, st, s), inner, inner, own, at)
       <==> AllOk(FreeStmt(st), s, inner, own, at) && NoCaptureStmt(s, st)
    decreases st, 1
  {
    hide AllOk, InForce, Ok, Same, KeptE, SubE, KeptBlock, RewriteBlock, FreeBlock, NoCaptureBlock, KeptArgs, SubArgs,
         Names, ArgNames, WellFormedBlock, Shaped;
    match st
    case ExprS(e) => KeptExpr(e, s, inner, own, at);
    case Decl(y, e) =>
      KeptExpr(e, s, inner, own, at);
      KeptWrite(y, s, inner, own, at);
      OkBoth({y}, Names(e), s, inner, own, at);
    case If(c, a, b) =>
      KeptExpr(c, s, inner, own, at);
      KeptInner(a, s, scope, inner, own, at);
      KeptInner(b, s, scope, inner, own, at);
      OkBoth(Names(c), FreeBlock(a), s, inner, own, at);
      OkBoth(Names(c) + FreeBlock(a), FreeBlock(b), s, inner, own, at);
    case While(c, b) =>
      KeptExpr(c, s, inner, own, at);
      KeptInner(b, s, scope, inner, own, at);
      OkBoth(Names(c), FreeBlock(b), s, inner, own, at);
    case Call(g, args) =>
      KeptList(args, s, inner, own, at);
      KeptWrite(g, s, inner, own, at);
      OkBoth({g}, ArgNames(args), s, inner, own, at);
      assert Renamed(g, s) == g;
    case Jump(_) => NoNames(s, inner, own, at);
  }

  // ----- one call site -----

  /** What the analysis and the language's rules say of a helper. */
  ghost predicate Sound(c: Candidate) {
    && CandidateNames(c) && c.guards == LeadingGuards(c.f.body) && c.tail == c.f.body[|c.guards|..]
    && Declared(c.tail) == Declared(c.f.body) && Elements(c.f.params) !! WritesBlock(c.f.body)
    && WellFormedStmts(c.tail, Elements(c.f.params) + Elements(Declared(c.tail)))
  }

  ghost predicate GuardsApart(c: Candidate) { ArgNames(c.guards) !! Elements(Declared(c.tail)) }

  lemma {:induction false} BodyFree(body: seq<Stmt>)
    ensures FreeStmts(body) == ArgNames(LeadingGuards(body)) + FreeStmts(body[|LeadingGuards(body)|..])
  {
    var guards := LeadingGuards(body);
    if guards == [] {
      assert body[0..] == body;
    } else {
      BodyFree(body[1..]);
      GuardsStep(body);
      assert guards[1..] == LeadingGuards(body[1..]);
      GuardFree(body[0]);
    }
  }

  lemma {:induction false} GuardFree(s: Stmt)
    requires IsGuard(s)
    ensures FreeStmt(s) == Names(s.c)
  {
    assert [Jump(Return)][1..] == [];
    assert FreeStmts([Jump(Return)]) == {} && FreeStmts([]) == {};
  }

  /** What the substitution at a call site does to the helper's names. */
  lemma {:induction false} SiteFacts(c: Candidate, args: seq<Expr>, taken: set<string>)
    requires Sound(c)
    ensures var s, added := SiteSub(c, args, taken), Elements(SiteNames(c, args, taken));
      && s.Keys <= Elements(c.f.params) + (if c.guards == [] then Elements(Declared(c.tail)) else {})
      && (forall y :: y in s && s[y].ToVar? ==> s[y].t in added)
      && (forall y :: y in s && s[y].ToUndefined? ==> y in c.f.params)
      && (forall y :: y in c.f.params && c.Used(y) ==> y in s)
      && (c.guards == [] ==> forall y :: y in Declared(c.tail) && y !in s ==> y in added)
  {
    var plan := SitePlan(c, args, taken);
    var (ren, names) := SiteRenames(c, args, taken);
    PlanNames(c, args, 0, taken);
    PlanSubstitutes(c, args, 0, taken);
    assert c.f.params[0..] == c.f.params;
    RenameNames(Declared(c.tail), taken + Elements(plan.added));
    forall y | y in c.f.params && c.Used(y) ensures y in plan.sub {
      var q :| 0 <= q < |c.f.params| && c.f.params[q] == y;
    }
    if c.guards == [] {
      assert SiteNames(c, args, taken) == plan.added + names;
      forall y | y in Declared(c.tail) && y !in plan.sub + ren ensures y in names {
        var q :| 0 <= q < |Declared(c.tail)| && Declared(c.tail)[q] == y;
        assert names[q] == Renamed(y, ren);
      }
      assert forall y :: y in plan.added || y in names ==> y in plan.added + names;
    } else {
      assert SiteNames(c, args, taken) == plan.added;
    }
  }

  lemma {:induction false} SiteInForce(c: Candidate, args: seq<Expr>, taken: set<string>)
    requires Sound(c)
    ensures var s := SiteSub(c, args, taken);
      && InForce(s, [], OwnAt(c, args, taken)) && Fit(c.tail, s, Elements(c.f.params) + Elements(Declared(c.tail)))
      && WritesRenamed(s, ArgWrites(c.guards))
  {
    hide SiteSub, SiteNames, FreeBlock, WritesStmts, Declared, WellFormedStmts, ArgWrites;
    SiteFacts(c, args, taken);
    BodyNames(c.f.body);
    var s, own, ds := SiteSub(c, args, taken), OwnAt(c, args, taken), Elements(Declared(c.tail));
    forall y ensures (y in s && s[y].ToUndefined?) <==> IsGone(y, [], own) {
      assert y in own <==> y in Elements(c.f.params) + ds;
    }
    forall y | y in WritesStmts(c.f.body) ensures y !in c.f.params {
      assert y in ds || y in WritesBlock(c.f.body);
      assert y !in Elements(c.f.params);
    }
    assert forall y :: y in Declared(c.tail) ==> y in ds;
    assert forall y :: y in c.f.params ==> y in Elements(c.f.params);
  }

  /** One name of the helper's own text, beyond the nested blocks. */
  lemma {:induction false} OwnName(c: Candidate, args: seq<Expr>, scope: set<string>, taken: set<string>, y: string,
    block: set<string>)
    requires Sound(c) && (y in c.f.params ==> c.Used(y)) && (c.guards == [] ==> block == {})
    ensures var s, added, ds := SiteSub(c, args, taken), Elements(SiteNames(c, args, taken)), Elements(Declared(c.tail));
      Ok(y, s, [], OwnAt(c, args, taken), Around(block, added, scope)) <==>
        if y in c.f.params then (y in s && s[y].ToVar? ==> s[y].t !in block)
        else if y in ds then (c.guards != [] ==> y in block)
        else y !in block && y !in added && y !in scope
  {
    hide SiteSub, SiteNames, FreeBlock, Declared, WritesStmts;
    SiteFacts(c, args, taken);
    var own := OwnAt(c, args, taken);
    var ps, ds := Elements(c.f.params), Elements(Declared(c.tail));
    assert (y in c.f.params <==> y in ps) && (y in own <==> y in ps || y in ds);
    assert y in Declared(c.tail) <==> y in ds;
  }

  lemma {:induction false} OutsideIs(c: Candidate)
    requires Sound(c)
    ensures Outside(c.f) == (ArgNames(c.guards) + FreeStmts(c.tail)) - Elements(Declared(c.tail)) - Elements(c.f.params)
    ensures forall y :: y in c.f.params && (y in ArgNames(c.guards) || y in FreeStmts(c.tail)) ==> c.Used(y)
  {
    hide FreeStmts, ArgNames, Declared;
    BodyFree(c.f.body);
    forall y | y in c.f.params && (y in ArgNames(c.guards) || y in FreeStmts(c.tail)) ensures c.Used(y) {
      assert y in Elements(c.f.params);
    }
  }

  /** At a call site the helper's text refers to what it referred to exactly when the site is clean and the guards
      read no local. */
  lemma {:induction false} SiteKeptWhen(c: Candidate, args: seq<Expr>, scope: set<string>, taken: set<string>)
    requires Sound(c)
    ensures SiteKept(c, args, scope, taken) <==> CleanSite(c, args, scope, taken) && GuardsApart(c)
  {
    if c.guards == [] { SplicedKept(c, args, scope, taken); } else { GuardedKept(c, args, scope, taken); }
  }

  lemma {:induction false} SplicedKept(c: Candidate, args: seq<Expr>, scope: set<string>, taken: set<string>)
    requires Sound(c) && c.guards == []
    ensures SiteKept(c, args, scope, taken) <==> CleanSite(c, args, scope, taken) && GuardsApart(c)
  {
    hide Sound, Ok, OwnAt, SiteSub, SiteNames, InForce, Fit, KeptStmts, RewriteStmts, NoCapture, FreeStmts, Outside,
         Declared;
    var s, own := SiteSub(c, args, taken), OwnAt(c, args, taken);
    var at := Around({}, Elements(SiteNames(c, args, taken)), scope);
    SiteInForce(c, args, taken);
    KeptCode(c.tail, s, {}, Elements(c.f.params) + Elements(Declared(c.tail)), [], own, at);
    OutsideIs(c);
    forall y | y in FreeStmts(c.tail)
      ensures Ok(y, s, [], own, at) <==> (y in Outside(c.f) ==> y !in at.added && y !in scope)
    {
      OwnName(c, args, scope, taken, y, {});
    }
  }

  lemma {:induction false} GuardedKept(c: Candidate, args: seq<Expr>, scope: set<string>, taken: set<string>)
    requires Sound(c) && c.guards != []
    ensures SiteKept(c, args, scope, taken) <==> CleanSite(c, args, scope, taken) && GuardsApart(c)
  {
    hide Sound, Ok, OwnAt, SiteSub, SiteNames, InForce, Fit, KeptStmts, KeptArgs, RewriteStmts, SubArgs, NoCapture,
         FreeStmts, ArgNames, Outside, Declared;
    var s, own, ds := SiteSub(c, args, taken), OwnAt(c, args, taken), Elements(Declared(c.tail));
    var at := Around({}, Elements(SiteNames(c, args, taken)), scope);
    var inside := at.(block := ds);
    SiteInForce(c, args, taken);
    GuardedSub(c, args, taken);
    KeptCode(c.tail, s, StmtsNames(c.tail), Elements(c.f.params) + ds, [], own, inside);
    KeptList(c.guards, s, [], own, at);
    SameDeclared(c.tail, s);
    OutsideIs(c);
    forall y | y in ArgNames(c.guards)
      ensures Ok(y, s, [], own, at) <==> y !in ds && (y in Outside(c.f) ==> y !in at.added && y !in scope)
    {
      OwnName(c, args, scope, taken, y, {});
    }
    forall y | y in FreeStmts(c.tail)
      ensures Ok(y, s, [], own, inside) <==>
        (y in Outside(c.f) ==> y !in at.added && y !in scope) && (y in s && s[y].ToVar? ==> s[y].t !in ds)
    {
      OwnName(c, args, scope, taken, y, ds);
    }
    assert forall y :: y in Outside(c.f) ==> y in ArgNames(c.guards) || y in FreeStmts(c.tail);
    assert forall y :: y in FreeStmts(c.tail) && y in s ==> y in FreeBlock(c.tail);
  }

  lemma {:induction false} GuardedSub(c: Candidate, args: seq<Expr>, taken: set<string>)
    requires Sound(c) && c.guards != []
    ensures var s, ds := SiteSub(c, args, taken), Elements(Declared(c.tail));
      s - ds == s && s.Keys <= Elements(c.f.params) && s.Keys !! ds && Elements(c.f.params) !! ds
  {
    SiteFacts(c, args, taken);
  }

  // ----- all call sites -----

  ghost predicate KeptHere(c: Candidate, ss: seq<Stmt>, scope: set<string>, taken: set<string>) {
    if ss == [] then true
    else if IsSite(Some(c), ss[0]) then
      && SiteKept(c, ss[0].args, scope, taken)
      && KeptHere(c, ss[1..], scope, taken + Elements(SiteNames(c, ss[0].args, taken)))
    else KeptHere(c, ss[1..], scope, taken)
  }

  ghost predicate KeptBelow(c: Candidate, ss: seq<Stmt>, scope: set<string>)
    decreases ss, 0
  {
    ss == [] || (KeptBelowStmt(c, ss[0], scope) && KeptBelow(c, ss[1..], scope))
  }

  ghost predicate KeptBelowStmt(c: Candidate, s: Stmt, scope: set<string>)
    decreases s, 0
  {
    match s
    case If(_, a, b) => SitesKept(c, a, scope) && SitesKept(c, b, scope)
    case While(_, b) => SitesKept(c, b, scope)
    case _ => true
  }

  /** At every call site in a block, at any depth, the helper's text refers to what it referred to. */
  ghost predicate SitesKept(c: Candidate, ss: seq<Stmt>, scope: set<string>)
    decreases ss, 1
  {
    var inner := scope + Elements(Declared(ss));
    KeptHere(c, ss, inner, StmtsNames(ss)) && KeptBelow(c, ss, inner)
  }

  ghost predicate ReferentsKept(p: Program, c: Candidate) {
    forall g :: g in p.funs ==> SitesKept(c, g.body, Elements(g.params))
  }

  predicate NoSiteHere(c: Candidate, ss: seq<Stmt>) { forall s :: s in ss ==> !IsSite(Some(c), s) }

  lemma {:induction false} HereWhen(c: Candidate, ss: seq<Stmt>, scope: set<string>, taken: set<string>)
    requires Sound(c)
    ensures KeptHere(c, ss, scope, taken) <==> CleanHere(c, ss, scope, taken) && (GuardsApart(c) || NoSiteHere(c, ss))
  {
    hide Sound, SiteKept, CleanSite, GuardsApart, SiteNames;
    if ss != [] {
      assert ss[0] in ss && forall s :: s in ss <==> s == ss[0] || s in ss[1..];
      if IsSite(Some(c), ss[0]) {
        SiteKeptWhen(c, ss[0].args, scope, taken);
        HereWhen(c, ss[1..], scope, taken + Elements(SiteNames(c, ss[0].args, taken)));
      } else {
        HereWhen(c, ss[1..], scope, taken);
      }
    }
  }

  lemma {:induction false} SitesWhen(c: Candidate, ss: seq<Stmt>, scope: set<string>)
    requires Sound(c)
    ensures SitesKept(c, ss, scope) <==> CleanBlock(c, ss, scope) && (GuardsApart(c) || CallsNone(ss, c.f.name))
    decreases ss, 1
  {
    hide Sound, GuardsApart, KeptHere, CleanHere, KeptBelow, CleanBelow;
    var inner := scope + Elements(Declared(ss));
    HereWhen(c, ss, inner, StmtsNames(ss));
    BelowWhen(c, ss, inner);
  }

  /** Calls directly in the list or in a block below. */
  lemma {:induction false} BelowWhen(c: Candidate, ss: seq<Stmt>, scope: set<string>)
    requires Sound(c)
    ensures GuardsApart(c) ==> (KeptBelow(c, ss, scope) <==> CleanBelow(c, ss, scope))
    ensures !GuardsApart(c) ==>
      (KeptBelow(c, ss, scope) && NoSiteHere(c, ss) <==> CleanBelow(c, ss, scope) && CallsNone(ss, c.f.name))
    ensures !GuardsApart(c) && CallsNone(ss, c.f.name) ==> NoSiteHere(c, ss)
    decreases ss, 0
  {
    hide Sound, GuardsApart, SitesKept, CleanBlock, NoSiteHere;
    if ss == [] {
      NoSiteNone(c);
    } else {
      BelowWhen(c, ss[1..], scope);
      NoSiteParts(c, ss);
      match ss[0] {
        case If(_, a, b) =>
          SitesWhen(c, a, scope);
          SitesWhen(c, b, scope);
        case While(_, b) => SitesWhen(c, b, scope);
        case Call(_, _) => assert CallsNoneStmt(ss[0], c.f.name) <==> !IsSite(Some(c), ss[0]);
        case ExprS(_) =>
        case Decl(_, _) =>
        case Jump(_) =>
      }
    }
  }

  lemma {:induction false} NoSiteNone(c: Candidate)
    ensures NoSiteHere(c, [])
  {
  }

  lemma {:induction false} NoSiteParts(c: Candidate, ss: seq<Stmt>)
    requires ss != []
    ensures NoSiteHere(c, ss) <==> !IsSite(Some(c), ss[0]) && NoSiteHere(c, ss[1..])
  {
    assert ss[0] in ss && forall s :: s in ss <==> s == ss[0] || s in ss[1..];
  }

  /**
   A round is clean exactly when, at every call site, every name in the helper's text refers afterwards to what it
   referred to before.
   */
  lemma {:induction false} HygienicExactly(p: Program, c: Candidate, maxStatements: nat)
    requires WellFormed(p) && c.f in p.funs && Analyze(p, c.f, maxStatements) == Some(c)
    ensures Hygienic(p, c) <==> ReferentsKept(p, c)
  {
    hide SitesKept, CleanBlock, GuardsApart, WellFormedFun, NoEscape, SitesOkBlock;
    AcceptedIsSound(p, c, maxStatements);
    forall g | g in p.funs
      ensures SitesKept(c, g.body, Elements(g.params))
        <==> CleanBlock(c, g.body, Elements(g.params)) && (GuardsApart(c) || CallsNone(g.body, c.f.name))
    {
      SitesWhen(c, g.body, Elements(g.params));
    }
    assert GuardsApart(c) <==> ArgNames(c.guards) !! Elements(Declared(c.tail)) by { ApartMeans(c); }
  }

  lemma {:induction false} ApartMeans(c: Candidate)
    ensures GuardsApart(c) <==> ArgNames(c.guards) !! Elements(Declared(c.tail))
  {
  }

  lemma {:induction false} AcceptedIsSound(p: Program, c: Candidate, maxStatements: nat)
    requires WellFormed(p) && c.f in p.funs && Analyze(p, c.f, maxStatements) == Some(c)
    ensures Sound(c)
  {
    GuardsDeclareNothing(c.f.body);
    var scope := Elements(c.f.params) + Elements(Declared(c.f.body));
    BodyShapes(c.f.body, scope, c.f.name);
    assert WellFormedFun(c.f);
    var a, b := Elements(c.f.params), WritesBlock(c.f.body);
    assert forall y :: y in a && y in b ==> y in a * b;
  }
}
