/**
 Which helpers the analysis accepts, told from the statements of the module: where
 each stands, in what scope, and whether in a loop.
 */
module InlinerAnalysis {
  import opened Basics
  import opened Expressions
  import opened Programs
  import opened Inliner

  // ----- statements in their places -----

  /** A statement, the names declared around it, and whether a loop is around it. */
  datatype Place = Place(s: Stmt, scope: set<string>, inLoop: bool)

  /** A statement and all statements inside it, each in its place. */
  function PlacesOf(s: Stmt, scope: set<string>, inLoop: bool): set<Place>
    decreases s, 0
  {
    {Place(s, scope, inLoop)} +
    match s
    case If(_, a, b) => PlacesInBlock(a, scope, inLoop) + PlacesInBlock(b, scope, inLoop)
    case While(_, b) => PlacesInBlock(b, scope, true)
    case _ => {}
  }

  function PlacesIn(ss: seq<Stmt>, scope: set<string>, inLoop: bool): set<Place>
    decreases ss, 0
  {
    if ss == [] then {} else PlacesOf(ss[0], scope, inLoop) + PlacesIn(ss[1..], scope, inLoop)
  }

  function PlacesInBlock(ss: seq<Stmt>, scope: set<string>, inLoop: bool): set<Place>
    decreases ss, 1
  {
    PlacesIn(ss, scope + Elements(Declared(ss)), inLoop)
  }

  /** An expression and all expressions inside it. */
  function Parts(e: Expr): set<Expr> {
    {e} +
    match e
    case Lit(_, _) => {}
    case Var(_, _) => {}
    case Op(_, _, l, r) => Parts(l) + Parts(r)
    case Paren(e1) => Parts(e1)
    case Not(e1) => Parts(e1)
    case Compare(_, l, r) => Parts(l) + Parts(r)
    case And(l, r) => Parts(l) + Parts(r)
    case Or(l, r) => Parts(l) + Parts(r)
    case Assign(_, e1) => Parts(e1)
  }

  /** The expressions that stand directly in a statement. */
  function ExprsOf(s: Stmt): seq<Expr> {
    match s
    case ExprS(e) => [e]
    case Decl(_, e) => [e]
    case If(c, _, _) => [c]
    case While(c, _) => [c]
    case Call(_, args) => args
    case Jump(_) => []
  }

  predicate IsCallOf(s: Stmt, g: string) { s.Call? && s.g == g }

  predicate AssignsIn(e: Expr, x: string) { exists a :: a in Parts(e) && a.Assign? && a.x == x }

  predicate Assigns(s: Stmt, x: string) { exists e :: e in ExprsOf(s) && AssignsIn(e, x) }

  predicate MentionsIn(e: Expr, x: string) { exists a :: a in Parts(e) && (a.Var? || a.Assign?) && a.x == x }

  /** A statement itself, not what is nested in it, writes the name `x`. */
  predicate Mentions(s: Stmt, x: string) {
    (s.Decl? && s.x == x) || IsCallOf(s, x) || exists e :: e in ExprsOf(s) && MentionsIn(e, x)
  }

  // ----- what may be inlined -----

  /** `if (c) return;` without an else. */
  predicate LeavesEarly(s: Stmt) { s.If? && s.thn == [Jump(Return)] && s.els == [] }

  /** The guards are the first `n` statements; what follows is short enough and stays inside itself. */
  predicate SplitsAt(body: seq<Stmt>, n: nat, maxStatements: nat) {
    && n < |body| && (forall i :: 0 <= i < n ==> LeavesEarly(body[i])) && !LeavesEarly(body[n])
    && 1 <= |body| - n <= maxStatements
    && forall t :: t in PlacesIn(body[n..], {}, false) && t.s.Jump? ==> t.s.kind != Return && t.inLoop
  }

  /** A name in the helper that neither a parameter nor any declaration in it introduces. */
  predicate TakenFromOutside(f: Fun, x: string) {
    var all := PlacesInBlock(f.body, {}, false);
    && x !in f.params
    && (exists t :: t in all && Mentions(t.s, x))
    && (forall t :: t in all && t.s.Decl? ==> t.s.x != x)
  }

  /** A call with no more arguments than parameters, in a scope that hides nothing the helper takes from outside. */
  predicate SiteFits(f: Fun, t: Place)
    requires t.s.Call?
  {
    |t.s.args| <= |f.params| && forall x :: x in t.scope ==> !TakenFromOutside(f, x)
  }

  predicate Inlinable(p: Program, f: Fun, n: nat, maxStatements: nat) {
    var all := PlacesInBlock(f.body, {}, false);
    && !f.exported
    && (forall t :: t in all ==> !IsCallOf(t.s, f.name))
    && (forall t, x :: t in all && x in f.params && x !in t.scope ==> !Assigns(t.s, x))
    && SplitsAt(f.body, n, maxStatements)
    && (forall g, t ::
          g in p.funs && t in PlacesInBlock(g.body, Elements(g.params), false) && IsCallOf(t.s, f.name)
          ==> SiteFits(f, t))
    && (exists g, t :: g in p.funs && t in PlacesInBlock(g.body, Elements(g.params), false) && IsCallOf(t.s, f.name))
  }

  // ----- what the analysis computes, in terms of places -----

  lemma {:induction false} ScopeGrows(ss: seq<Stmt>, scope: set<string>, inLoop: bool, t: Place)
    requires t in PlacesIn(ss, scope, inLoop)
    ensures scope <= t.scope
    decreases ss, 0
  {
    if t in PlacesOf(ss[0], scope, inLoop) {
      match ss[0]
      case If(_, a, b) =>
        if t in PlacesInBlock(a, scope, inLoop) { ScopeGrows(a, scope + Elements(Declared(a)), inLoop, t); }
        if t in PlacesInBlock(b, scope, inLoop) { ScopeGrows(b, scope + Elements(Declared(b)), inLoop, t); }
      case While(_, b) =>
        if t in PlacesInBlock(b, scope, true) { ScopeGrows(b, scope + Elements(Declared(b)), true, t); }
      case _ =>
    } else {
      ScopeGrows(ss[1..], scope, inLoop, t);
    }
  }

  lemma {:induction false} CallsNoneMeans(ss: seq<Stmt>, scope: set<string>, inLoop: bool, g: string)
    ensures CallsNone(ss, g) <==> forall t :: t in PlacesIn(ss, scope, inLoop) ==> !IsCallOf(t.s, g)
    decreases ss, 0
  {
    if ss != [] {
      CallsNoneOf(ss[0], scope, inLoop, g);
      CallsNoneMeans(ss[1..], scope, inLoop, g);
    }
  }

  lemma {:induction false} CallsNoneOf(s: Stmt, scope: set<string>, inLoop: bool, g: string)
    ensures CallsNoneStmt(s, g) <==> forall t :: t in PlacesOf(s, scope, inLoop) ==> !IsCallOf(t.s, g)
    decreases s, 0
  {
    assert Place(s, scope, inLoop) in PlacesOf(s, scope, inLoop);
    match s
    case If(_, a, b) =>
      CallsNoneMeans(a, scope + Elements(Declared(a)), inLoop, g);
      CallsNoneMeans(b, scope + Elements(Declared(b)), inLoop, g);
    case While(_, b) => CallsNoneMeans(b, scope + Elements(Declared(b)), true, g);
    case _ =>
  }

  predicate StaysInside(t: Place) { t.s.Jump? ==> t.s.kind != Return && t.inLoop }

  lemma {:induction false} NoEscapeMeans(ss: seq<Stmt>, scope: set<string>, inLoop: bool)
    ensures NoEscape(ss, inLoop) <==> forall t :: t in PlacesIn(ss, scope, inLoop) ==> StaysInside(t)
    decreases ss, 0
  {
    if ss != [] {
      NoEscapeOf(ss[0], scope, inLoop);
      NoEscapeMeans(ss[1..], scope, inLoop);
    }
  }

  lemma {:induction false} NoEscapeOf(s: Stmt, scope: set<string>, inLoop: bool)
    ensures NoEscapeStmt(s, inLoop) <==> forall t :: t in PlacesOf(s, scope, inLoop) ==> StaysInside(t)
    decreases s, 0
  {
    var here := Place(s, scope, inLoop);
    assert here in PlacesOf(s, scope, inLoop);
    match s
    case If(_, a, b) =>
      NoEscapeMeans(a, scope + Elements(Declared(a)), inLoop);
      NoEscapeMeans(b, scope + Elements(Declared(b)), inLoop);
    case While(_, b) => NoEscapeMeans(b, scope + Elements(Declared(b)), true);
    case _ => assert PlacesOf(s, scope, inLoop) == {here} && NoEscapeStmt(s, inLoop) == StaysInside(here);
  }

  predicate NotHidden(c: Candidate, t: Place) {
    IsCallOf(t.s, c.f.name) ==> |t.s.args| <= |c.f.params| && FreeNames(c.f) !! t.scope
  }

  lemma {:induction false} SitesOkMeans(c: Candidate, ss: seq<Stmt>, scope: set<string>, inLoop: bool)
    ensures SitesOk(c, ss, scope) <==> forall t :: t in PlacesIn(ss, scope, inLoop) ==> NotHidden(c, t)
    decreases ss, 0
  {
    if ss != [] {
      SitesOkOf(c, ss[0], scope, inLoop);
      SitesOkMeans(c, ss[1..], scope, inLoop);
    }
  }

  lemma {:induction false} SitesOkOf(c: Candidate, s: Stmt, scope: set<string>, inLoop: bool)
    ensures SitesOkStmt(c, s, scope) <==> forall t :: t in PlacesOf(s, scope, inLoop) ==> NotHidden(c, t)
    decreases s, 0
  {
    hide FreeNames;
    var here := Place(s, scope, inLoop);
    assert here in PlacesOf(s, scope, inLoop);
    match s
    case If(_, a, b) =>
      SitesOkMeans(c, a, scope + Elements(Declared(a)), inLoop);
      SitesOkMeans(c, b, scope + Elements(Declared(b)), inLoop);
    case While(_, b) => SitesOkMeans(c, b, scope + Elements(Declared(b)), true);
    case _ => assert PlacesOf(s, scope, inLoop) == {here} && SitesOkStmt(c, s, scope) == NotHidden(c, here);
  }

  // ----- names -----

  lemma {:induction false} AssignsParts(e: Expr, parts: set<Expr>, x: string)
    requires Parts(e) == {e} + parts
    ensures AssignsIn(e, x) <==> (e.Assign? && e.x == x) || exists a :: a in parts && a.Assign? && a.x == x
  {
    assert e in Parts(e);
  }

  lemma {:induction false} AssignsPair(e: Expr, l: Expr, r: Expr, x: string)
    requires Parts(e) == {e} + (Parts(l) + Parts(r)) && !e.Assign?
    ensures AssignsIn(e, x) <==> AssignsIn(l, x) || AssignsIn(r, x)
  {
    AssignsParts(e, Parts(l) + Parts(r), x);
  }

  lemma {:induction false} WritesMeans(e: Expr, x: string)
    ensures x in Writes(e) <==> AssignsIn(e, x)
  {
    match e
    case Lit(_, _) => AssignsParts(e, {}, x);
    case Var(_, _) => AssignsParts(e, {}, x);
    case Op(_, _, l, r) => WritesMeans(l, x); WritesMeans(r, x); AssignsPair(e, l, r, x);
    case Compare(_, l, r) => WritesMeans(l, x); WritesMeans(r, x); AssignsPair(e, l, r, x);
    case And(l, r) => WritesMeans(l, x); WritesMeans(r, x); AssignsPair(e, l, r, x);
    case Or(l, r) => WritesMeans(l, x); WritesMeans(r, x); AssignsPair(e, l, r, x);
    case Paren(e1) => WritesMeans(e1, x); AssignsParts(e, Parts(e1), x);
    case Not(e1) => WritesMeans(e1, x); AssignsParts(e, Parts(e1), x);
    case Assign(_, e1) => WritesMeans(e1, x); AssignsParts(e, Parts(e1), x);
  }

  lemma {:induction false} MentionsParts(e: Expr, parts: set<Expr>, x: string)
    requires Parts(e) == {e} + parts
    ensures MentionsIn(e, x)
       <==> ((e.Var? || e.Assign?) && e.x == x) || exists a :: a in parts && (a.Var? || a.Assign?) && a.x == x
  {
    assert e in Parts(e);
  }

  lemma {:induction false} MentionsPair(e: Expr, l: Expr, r: Expr, x: string)
    requires Parts(e) == {e} + (Parts(l) + Parts(r)) && !e.Var? && !e.Assign?
    ensures MentionsIn(e, x) <==> MentionsIn(l, x) || MentionsIn(r, x)
  {
    MentionsParts(e, Parts(l) + Parts(r), x);
  }

  lemma {:induction false} NamesMeans(e: Expr, x: string)
    ensures x in Names(e) <==> MentionsIn(e, x)
  {
    match e
    case Lit(_, _) => MentionsParts(e, {}, x);
    case Var(_, _) => MentionsParts(e, {}, x);
    case Op(_, _, l, r) => NamesMeans(l, x); NamesMeans(r, x); MentionsPair(e, l, r, x);
    case Compare(_, l, r) => NamesMeans(l, x); NamesMeans(r, x); MentionsPair(e, l, r, x);
    case And(l, r) => NamesMeans(l, x); NamesMeans(r, x); MentionsPair(e, l, r, x);
    case Or(l, r) => NamesMeans(l, x); NamesMeans(r, x); MentionsPair(e, l, r, x);
    case Paren(e1) => NamesMeans(e1, x); MentionsParts(e, Parts(e1), x);
    case Not(e1) => NamesMeans(e1, x); MentionsParts(e, Parts(e1), x);
    case Assign(_, e1) => NamesMeans(e1, x); MentionsParts(e, Parts(e1), x);
  }

  lemma {:induction false} ArgsMean(es: seq<Expr>, x: string)
    ensures x in ArgWrites(es) <==> exists e :: e in es && AssignsIn(e, x)
    ensures x in ArgNames(es) <==> exists e :: e in es && MentionsIn(e, x)
  {
    hide Writes, Names, AssignsIn, MentionsIn;
    if es != [] {
      WritesMeans(es[0], x);
      NamesMeans(es[0], x);
      ArgsMean(es[1..], x);
      assert forall e :: e in es <==> e == es[0] || e in es[1..];
    }
  }

  /** Written under its own name: no block around declares another `x`. */
  predicate WritesHere(t: Place, x: string) { x !in t.scope && Assigns(t.s, x) }

  lemma {:induction false} WrittenIn(ss: seq<Stmt>, scope: set<string>, inLoop: bool, x: string)
    requires x !in scope
    ensures x in WritesStmts(ss) <==> exists t :: t in PlacesIn(ss, scope, inLoop) && WritesHere(t, x)
    decreases ss, 0
  {
    hide WritesHere;
    if ss != [] {
      WrittenOf(ss[0], scope, inLoop, x);
      WrittenIn(ss[1..], scope, inLoop, x);
    }
  }

  lemma {:induction false} WrittenOf(s: Stmt, scope: set<string>, inLoop: bool, x: string)
    requires x !in scope
    ensures x in WritesStmt(s) <==> exists t :: t in PlacesOf(s, scope, inLoop) && WritesHere(t, x)
    decreases s, 0
  {
    hide Writes, AssignsIn;
    var here := Place(s, scope, inLoop);
    assert here in PlacesOf(s, scope, inLoop);
    assert WritesHere(here, x) <==> Assigns(s, x);
    match s
    case ExprS(e) => WritesMeans(e, x); assert e in ExprsOf(s);
    case Decl(_, e) => WritesMeans(e, x); assert e in ExprsOf(s);
    case If(c, a, b) =>
      WritesMeans(c, x);
      assert c in ExprsOf(s);
      WrittenInBlock(a, scope, inLoop, x);
      WrittenInBlock(b, scope, inLoop, x);
    case While(c, b) =>
      WritesMeans(c, x);
      assert c in ExprsOf(s);
      WrittenInBlock(b, scope, true, x);
    case Call(_, args) => ArgsMean(args, x);
    case Jump(_) =>
  }

  lemma {:induction false} WrittenInBlock(ss: seq<Stmt>, scope: set<string>, inLoop: bool, x: string)
    requires x !in scope
    ensures x in WritesBlock(ss) <==> exists t :: t in PlacesInBlock(ss, scope, inLoop) && WritesHere(t, x)
    decreases ss, 1
  {
    var inner := scope + Elements(Declared(ss));
    if x in inner {
      forall t | t in PlacesIn(ss, inner, inLoop) ensures !WritesHere(t, x) { ScopeGrows(ss, inner, inLoop, t); }
    } else {
      WrittenIn(ss, inner, inLoop, x);
    }
  }

  predicate Declares(s: Stmt, x: string) { s.Decl? && s.x == x }

  lemma {:induction false} NamedIn(ss: seq<Stmt>, scope: set<string>, inLoop: bool, x: string)
    ensures x in StmtsNames(ss) <==> exists t :: t in PlacesIn(ss, scope, inLoop) && Mentions(t.s, x)
    ensures x in LocalsStmts(ss) <==> exists t :: t in PlacesIn(ss, scope, inLoop) && Declares(t.s, x)
    decreases ss, 0
  {
    hide Mentions, Declares;
    if ss != [] {
      NamedOf(ss[0], scope, inLoop, x);
      NamedIn(ss[1..], scope, inLoop, x);
    }
  }

  lemma {:induction false} NamedOf(s: Stmt, scope: set<string>, inLoop: bool, x: string)
    ensures x in StmtNames(s) <==> exists t :: t in PlacesOf(s, scope, inLoop) && Mentions(t.s, x)
    ensures x in LocalsStmt(s) <==> exists t :: t in PlacesOf(s, scope, inLoop) && Declares(t.s, x)
    decreases s, 0
  {
    hide Names, MentionsIn;
    var here := Place(s, scope, inLoop);
    assert here in PlacesOf(s, scope, inLoop);
    match s
    case ExprS(e) => NamesMeans(e, x); assert e in ExprsOf(s);
    case Decl(_, e) => NamesMeans(e, x); assert e in ExprsOf(s);
    case If(c, a, b) =>
      NamesMeans(c, x);
      assert c in ExprsOf(s);
      NamedIn(a, scope + Elements(Declared(a)), inLoop, x);
      NamedIn(b, scope + Elements(Declared(b)), inLoop, x);
    case While(c, b) =>
      NamesMeans(c, x);
      assert c in ExprsOf(s);
      NamedIn(b, scope + Elements(Declared(b)), true, x);
    case Call(_, args) => ArgsMean(args, x);
    case Jump(_) =>
  }

  lemma {:induction false} FreeNamesMeans(f: Fun, x: string)
    ensures x in FreeNames(f) <==> TakenFromOutside(f, x)
  {
    hide Mentions, StmtsNames, LocalsStmts, PlacesIn;
    NamedIn(f.body, {} + Elements(Declared(f.body)), false, x);
    assert forall t :: t in PlacesInBlock(f.body, {}, false) ==> (Declares(t.s, x) <==> t.s.Decl? && t.s.x == x);
  }

  // ----- the analysis -----

  lemma {:induction false} GuardsLeave(body: seq<Stmt>)
    ensures forall i :: 0 <= i < |body| ==> (IsGuard(body[i]) <==> LeavesEarly(body[i]))
  {
  }

  lemma {:induction false} GuardsSplit(body: seq<Stmt>, n: nat)
    requires n < |body| && (forall i :: 0 <= i < n ==> IsGuard(body[i])) && !IsGuard(body[n])
    ensures |LeadingGuards(body)| == n
  {
    if n > 0 {
      GuardsSplit(body[1..], n - 1);
    }
  }

  lemma {:induction false} GuardsLead(body: seq<Stmt>)
    ensures var n := |LeadingGuards(body)|;
      && (forall i :: 0 <= i < n ==> IsGuard(body[i]) && body[i].c == LeadingGuards(body)[i])
      && (n < |body| ==> !IsGuard(body[n]))
  {
    if body != [] && IsGuard(body[0]) {
      GuardsLead(body[1..]);
      var gs := LeadingGuards(body[1..]);
      assert forall i :: 0 <= i < |gs| ==> body[i + 1] == body[1..][i];
      forall i | 0 <= i < |LeadingGuards(body)| ensures IsGuard(body[i]) && body[i].c == LeadingGuards(body)[i] {
        if i > 0 { assert body[i] == body[1..][i - 1]; }
      }
    }
  }

  /** The candidate is made of the conditions of the guards and of what follows them. */
  predicate SplitInto(c: Candidate, f: Fun, n: nat) {
    && c.f == f && n <= |f.body| && |c.guards| == n && c.tail == f.body[n..]
    && forall i :: 0 <= i < n ==> f.body[i].If? && f.body[i].c == c.guards[i]
  }

  lemma {:induction false} TailFits(body: seq<Stmt>, n: nat, maxStatements: nat)
    requires n <= |body| && n == |LeadingGuards(body)|
    ensures SplitsAt(body, n, maxStatements)
       <==> body[n..] != [] && |body[n..]| <= maxStatements && NoEscape(body[n..], false)
  {
    hide IsGuard, LeavesEarly, LeadingGuards, NoEscape, PlacesIn;
    GuardsLead(body);
    GuardsLeave(body);
    NoEscapeMeans(body[n..], {}, false);
    assert forall t :: t in PlacesIn(body[n..], {}, false) ==>
      (StaysInside(t) <==> (t.s.Jump? ==> t.s.kind != Return && t.inLoop));
  }

  lemma {:induction false} SiteFitsMeans(c: Candidate, t: Place)
    requires IsCallOf(t.s, c.f.name)
    ensures NotHidden(c, t) <==> SiteFits(c.f, t)
  {
    hide TakenFromOutside, FreeNames;
    forall x ensures x in FreeNames(c.f) <==> TakenFromOutside(c.f, x) { FreeNamesMeans(c.f, x); }
  }

  lemma {:induction false} SitesMean(p: Program, c: Candidate)
    ensures (forall g :: g in p.funs ==> SitesOkBlock(c, g.body, Elements(g.params)))
       <==> (forall g, t ::
              g in p.funs && t in PlacesInBlock(g.body, Elements(g.params), false) && IsCallOf(t.s, c.f.name)
              ==> SiteFits(c.f, t))
    ensures (exists g :: g in p.funs && !CallsNone(g.body, c.f.name))
       <==> (exists g, t :: g in p.funs && t in PlacesInBlock(g.body, Elements(g.params), false)
                              && IsCallOf(t.s, c.f.name))
  {
    hide SitesOk, CallsNone, PlacesIn, SiteFits, FreeNames;
    forall g | g in p.funs
      ensures SitesOkBlock(c, g.body, Elements(g.params))
         <==> forall t ::
                t in PlacesInBlock(g.body, Elements(g.params), false) && IsCallOf(t.s, c.f.name) ==> SiteFits(c.f, t)
      ensures CallsNone(g.body, c.f.name)
         <==> forall t :: t in PlacesInBlock(g.body, Elements(g.params), false) ==> !IsCallOf(t.s, c.f.name)
    {
      var inner := Elements(g.params) + Elements(Declared(g.body));
      SitesOkMeans(c, g.body, inner, false);
      CallsNoneMeans(g.body, inner, false, c.f.name);
      forall t | t in PlacesIn(g.body, inner, false) && IsCallOf(t.s, c.f.name)
        ensures NotHidden(c, t) <==> SiteFits(c.f, t)
      {
        SiteFitsMeans(c, t);
      }
    }
  }

  lemma {:induction false} BodyMeans(f: Fun)
    ensures CallsNone(f.body, f.name) <==> forall t :: t in PlacesInBlock(f.body, {}, false) ==> !IsCallOf(t.s, f.name)
    ensures Elements(f.params) * WritesBlock(f.body) == {}
       <==> forall t, x :: t in PlacesInBlock(f.body, {}, false) && x in f.params && x !in t.scope ==> !Assigns(t.s, x)
  {
    hide CallsNone, WritesBlock, PlacesIn, Assigns;
    CallsNoneMeans(f.body, {} + Elements(Declared(f.body)), false, f.name);
    forall x
      ensures x in WritesBlock(f.body) <==> exists t :: t in PlacesInBlock(f.body, {}, false) && WritesHere(t, x)
    {
      WrittenInBlock(f.body, {}, false, x);
    }
    if Elements(f.params) * WritesBlock(f.body) == {} {
      forall t, x | t in PlacesInBlock(f.body, {}, false) && x in f.params && x !in t.scope
        ensures !Assigns(t.s, x)
      {
        if Assigns(t.s, x) { assert WritesHere(t, x) && x in Elements(f.params) * WritesBlock(f.body); }
      }
    } else {
      var x :| x in Elements(f.params) * WritesBlock(f.body);
      var t :| t in PlacesInBlock(f.body, {}, false) && WritesHere(t, x);
    }
  }

  /** The analysis accepts exactly the functions that may be inlined, and splits them at the last leading guard. */
  lemma {:induction false} AnalyzeExactly(p: Program, f: Fun, maxStatements: nat, n: nat)
    ensures Analyze(p, f, maxStatements).Some? && SplitInto(Analyze(p, f, maxStatements).value, f, n)
       <==> Inlinable(p, f, n, maxStatements)
    ensures Analyze(p, f, maxStatements).Some? ==> Inlinable(p, f, |LeadingGuards(f.body)|, maxStatements)
  {
    hide PlacesInBlock, SitesOkBlock, CallsNone, WritesBlock, SiteFits, NoEscape, LeadingGuards, IsCallOf, Assigns,
         SplitsAt;
    var m := |LeadingGuards(f.body)|;
    var c := Candidate(f, LeadingGuards(f.body), f.body[m..]);
    BodyMeans(f);
    SitesMean(p, c);
    TailFits(f.body, m, maxStatements);
    SplitAtGuards(f, m, n, maxStatements);
  }

  lemma {:induction false} SplitAtGuards(f: Fun, m: nat, n: nat, maxStatements: nat)
    requires m == |LeadingGuards(f.body)|
    ensures SplitInto(Candidate(f, LeadingGuards(f.body), f.body[m..]), f, n) <==> n == m
    ensures SplitsAt(f.body, n, maxStatements) ==> n == m
  {
    hide PlacesIn;
    GuardsLead(f.body);
    if SplitsAt(f.body, n, maxStatements) { GuardsSplit(f.body, n); }
  }

  // ----- rounds -----

  ghost predicate NoneInlinable(p: Program, upTo: nat, maxStatements: nat)
    requires upTo <= |p.funs|
  {
    forall j, n: nat :: 0 <= j < upTo ==> !Inlinable(p, p.funs[j], n, maxStatements)
  }

  /** One round: the first function that may be inlined goes, under its name, into all its calls. */
  ghost predicate Round(p: Program, q: Program, name: string, maxStatements: nat, c: Candidate, k: nat, n: nat) {
    && k < |p.funs| && c.f == p.funs[k] && name == c.f.name && q == InlineInto(p, c)
    && Inlinable(p, c.f, n, maxStatements) && SplitInto(c, c.f, n) && NoneInlinable(p, k, maxStatements)
  }

  ghost predicate OneRound(p: Program, q: Program, name: string, maxStatements: nat) {
    exists c, k, n :: Round(p, q, name, maxStatements, c, k, n)
  }

  ghost predicate RoundAt(ps: seq<Program>, inlined: seq<string>, maxStatements: nat, i: nat) {
    i < |inlined| && i + 1 < |ps| && OneRound(ps[i], ps[i + 1], inlined[i], maxStatements)
  }

  /** From round to round, until nothing may be inlined or the limit is reached. */
  ghost predicate Trace(ps: seq<Program>, inlined: seq<string>, maxStatements: nat, limit: nat) {
    && |ps| == |inlined| + 1 && |inlined| <= limit
    && (forall i :: 0 <= i < |inlined| ==> RoundAt(ps, inlined, maxStatements, i))
    && (|inlined| < limit ==> NoneInlinable(ps[|inlined|], |ps[|inlined|].funs|, maxStatements))
  }

  function FunNames(funs: seq<Fun>): set<string> { set f | f in funs :: f.name }

  lemma {:induction false} OneNameGone(c: Candidate, funs: seq<Fun>)
    ensures FunNames(RewriteFuns(c, funs)) == FunNames(funs) - {c.f.name}
  {
    if funs == [] {
      assert FunNames(RewriteFuns(c, funs)) == {};
    } else {
      var rest := RewriteFuns(c, funs[1..]);
      OneNameGone(c, funs[1..]);
      assert funs == [funs[0]] + funs[1..];
      assert FunNames(funs) == {funs[0].name} + FunNames(funs[1..]);
      if funs[0].name != c.f.name {
        var first := funs[0].(body := RewriteBlock(Some(c), funs[0].body, map[]));
        assert FunNames([first] + rest) == {first.name} + FunNames(rest);
      }
    }
  }

  lemma {:induction false} TraceRest(ps: seq<Program>, inlined: seq<string>, maxStatements: nat, limit: nat)
    requires Trace(ps, inlined, maxStatements, limit) && inlined != []
    ensures Trace(ps[1..], inlined[1..], maxStatements, limit - 1)
  {
    hide Round, NoneInlinable;
    forall i | 0 <= i < |inlined| - 1 ensures RoundAt(ps[1..], inlined[1..], maxStatements, i) {
      assert RoundAt(ps, inlined, maxStatements, i + 1);
    }
  }

  lemma {:induction false} FirstRound(ps: seq<Program>, inlined: seq<string>, maxStatements: nat, limit: nat)
    requires Trace(ps, inlined, maxStatements, limit) && inlined != []
    ensures |ps| == |inlined| + 1 && limit > 0
    ensures FunNames(ps[1].funs) == FunNames(ps[0].funs) - {inlined[0]}
  {
    hide Inlinable, NoneInlinable, SplitInto, FunNames;
    assert RoundAt(ps, inlined, maxStatements, 0);
    var c, k, n :| Round(ps[0], ps[1], inlined[0], maxStatements, c, k, n);
    OneNameGone(c, ps[0].funs);
  }

  /** A function is gone exactly when its round inlined it. */
  lemma {:induction false} GoneAreInlined(ps: seq<Program>, inlined: seq<string>, maxStatements: nat, limit: nat)
    requires Trace(ps, inlined, maxStatements, limit)
    ensures |ps| == |inlined| + 1
    ensures FunNames(ps[|inlined|].funs) == FunNames(ps[0].funs) - Elements(inlined)
    decreases |inlined|
  {
    hide RoundAt, NoneInlinable, FunNames;
    if inlined == [] {
      assert Elements(inlined) == {};
    } else {
      FirstRound(ps, inlined, maxStatements, limit);
      TraceRest(ps, inlined, maxStatements, limit);
      GoneAreInlined(ps[1..], inlined[1..], maxStatements, limit - 1);
      assert inlined == [inlined[0]] + inlined[1..];
      assert Elements(inlined) == {inlined[0]} + Elements(inlined[1..]);
    }
  }

  // ----- helpers of any size -----

  const GUARD := If(Var(0, "x"), [Jump(Return)], [])

  const USED := ExprS(Op(1, "use", Var(2, "x"), Var(3, "x")))

  /** `h(x) { if (x) return; … use(x, x); … }` with so many guards and uses. */
  function Sized(guards: nat, uses: nat): Fun {
    Fun("h", ["x"], seq(guards, i => GUARD) + seq(uses, i => USED), false)
  }

  const CALLER := Fun("main", [], [Call("h", [Lit(9, Num(1))])], true)

  /** `main` calls the helper once. */
  function SizedModule(guards: nat, uses: nat): Program { Program([], [Sized(guards, uses), CALLER]) }

  lemma {:induction false} SizedPlaces(ss: seq<Stmt>, scope: set<string>, inLoop: bool, t: Place)
    requires (forall s :: s in ss ==> s == GUARD || s == USED) && t in PlacesIn(ss, scope, inLoop)
    ensures t.s == GUARD || t.s == USED || (t.s == Jump(Return) && GUARD in ss)
  {
    assert ss != [] && ss[0] in ss && forall s :: s in ss[1..] ==> s in ss;
    if t in PlacesIn(ss[1..], scope, inLoop) {
      SizedPlaces(ss[1..], scope, inLoop, t);
    } else if ss[0] == GUARD {
      GuardPlaces(scope, inLoop);
    } else {
      assert PlacesOf(USED, scope, inLoop) == {Place(USED, scope, inLoop)};
    }
  }

  lemma {:induction false} GuardPlaces(scope: set<string>, inLoop: bool)
    ensures forall t :: t in PlacesOf(GUARD, scope, inLoop) ==> t.s == GUARD || t.s == Jump(Return)
  {
    var jump: seq<Stmt> := [Jump(Return)];
    var inner := scope + Elements(Declared(jump));
    assert jump[1..] == [] && PlacesIn(jump, inner, inLoop) == PlacesOf(Jump(Return), inner, inLoop) + {};
    assert PlacesInBlock(jump, scope, inLoop) == {Place(Jump(Return), inner, inLoop)};
    assert PlacesInBlock([], scope, inLoop) == {};
  }

  lemma {:induction false} NothingAssigned(s: Stmt, x: string)
    requires s == GUARD || s == USED || s == Jump(Return)
    ensures !Assigns(s, x) && !IsCallOf(s, x)
  {
    var l, r := Var(2, "x"), Var(3, "x");
    assert Parts(l) == {l} && Parts(r) == {r} && Parts(Var(0, "x")) == {Var(0, "x")};
    assert Parts(Op(1, "use", l, r)) == {Op(1, "use", l, r)} + ({l} + {r});
  }

  lemma {:induction false} CallerPlaces(t: Place)
    ensures t in PlacesInBlock(CALLER.body, Elements(CALLER.params), false) <==> t == Place(CALLER.body[0], {}, false)
  {
    var body := CALLER.body;
    assert body[1..] == [] && Declared(body) == [] && Elements<string>([]) == {};
    assert {} + Elements(Declared(body)) == {};
    assert PlacesIn(body, {}, false) == PlacesOf(body[0], {}, false) + PlacesIn([], {}, false);
  }

  lemma {:induction false} SizedSplits(guards: nat, uses: nat, n: nat, maxStatements: nat)
    ensures SplitsAt(Sized(guards, uses).body, n, maxStatements) <==> n == guards && 1 <= uses <= maxStatements
  {
    hide PlacesIn;
    var body, tail := Sized(guards, uses).body, seq(uses, i => USED);
    assert body[guards..] == tail;
    forall t | t in PlacesIn(tail, {}, false) ensures !t.s.Jump? { SizedPlaces(tail, {}, false, t); }
    assert IsGuard(GUARD) && !IsGuard(USED);
    assert forall i :: 0 <= i < guards ==> body[i] == GUARD;
    assert forall i :: guards <= i < |body| ==> body[i] == USED;
    if n < guards { assert IsGuard(body[n]); }
    if guards < n < |body| { assert !IsGuard(body[guards]); }
  }

  lemma {:induction false} SizedQuiet(guards: nat, uses: nat, scope: set<string>, t: Place)
    requires t in PlacesInBlock(Sized(guards, uses).body, scope, false)
    ensures forall x :: !Assigns(t.s, x) && !IsCallOf(t.s, x)
  {
    hide PlacesIn, Assigns, IsCallOf;
    var body := Sized(guards, uses).body;
    SizedPlaces(body, scope + Elements(Declared(body)), false, t);
    forall x ensures !Assigns(t.s, x) && !IsCallOf(t.s, x) { NothingAssigned(t.s, x); }
  }

  lemma {:induction false} SizedInlinable(guards: nat, uses: nat, n: nat, maxStatements: nat)
    ensures var p := SizedModule(guards, uses);
      && (Inlinable(p, p.funs[0], n, maxStatements) <==> n == guards && 1 <= uses <= maxStatements)
      && !Inlinable(p, p.funs[1], n, maxStatements)
  {
    hide PlacesInBlock, SplitsAt, Assigns, TakenFromOutside;
    var p := SizedModule(guards, uses);
    var h := p.funs[0];
    SizedSplits(guards, uses, n, maxStatements);
    forall t, scope | t in PlacesInBlock(h.body, scope, false) ensures forall x :: !Assigns(t.s, x) && !IsCallOf(t.s, x) {
      SizedQuiet(guards, uses, scope, t);
    }
    var site := Place(CALLER.body[0], {}, false);
    CallerPlaces(site);
    assert IsCallOf(site.s, "h") && SiteFits(h, site);
    forall t | t in PlacesInBlock(CALLER.body, Elements(CALLER.params), false) ensures t == site { CallerPlaces(t); }
    assert p.funs[1] == CALLER && CALLER in p.funs;
  }

  /** A helper with any guards before `n` statements goes exactly when these are some, and no more than allowed. */
  lemma {:induction false} SizedExactly(guards: nat, uses: nat, maxStatements: nat, limit: nat, ps: seq<Program>,
    inlined: seq<string>)
    requires Trace(ps, inlined, maxStatements, limit) && ps[0] == SizedModule(guards, uses) && limit > 0
    ensures inlined == if 1 <= uses <= maxStatements then ["h"] else []
  {
    hide Inlinable, SplitInto, InlineInto;
    var p, allowed := SizedModule(guards, uses), 1 <= uses <= maxStatements;
    forall n ensures Inlinable(p, p.funs[0], n, maxStatements) <==> n == guards && allowed
      ensures !Inlinable(p, p.funs[1], n, maxStatements)
    {
      SizedInlinable(guards, uses, n, maxStatements);
    }
    if inlined == [] {
      assert NoneInlinable(p, 2, maxStatements);
      assert !Inlinable(p, p.funs[0], guards, maxStatements);
    } else {
      assert RoundAt(ps, inlined, maxStatements, 0);
      var c, k, n :| Round(p, ps[1], inlined[0], maxStatements, c, k, n);
      assert k == 0;
      OnlyMainLeft(guards, uses, c);
      if |inlined| > 1 {
        assert RoundAt(ps, inlined, maxStatements, 1);
        var c2, k2, n2 :| Round(ps[1], ps[2], inlined[1], maxStatements, c2, k2, n2);
        ExportedStay(ps[1], c2.f, n2, maxStatements);
        assert false;
      }
    }
  }

  lemma {:induction false} OnlyMainLeft(guards: nat, uses: nat, c: Candidate)
    requires c.f == Sized(guards, uses)
    ensures forall f :: f in InlineInto(SizedModule(guards, uses), c).funs ==> f.exported
  {
    var funs := SizedModule(guards, uses).funs;
    assert funs[1..] == [CALLER] && funs[1..][1..] == [];
    assert RewriteFuns(c, funs[1..]) == [CALLER.(body := RewriteBlock(Some(c), CALLER.body, map[]))] + RewriteFuns(c, []);
  }

  lemma {:induction false} ExportedStay(p: Program, f: Fun, n: nat, maxStatements: nat)
    ensures Inlinable(p, f, n, maxStatements) ==> !f.exported
  {
  }
}
