/**
 When a round is clean, judged by the helper's own text: no name it takes from
 outside is declared in it as well, no guard reads a local of the tail, and none
 of the names that could be captured looks like one the inliner makes up.
 */
module InlinerHygiene {
  import opened Basics
  import opened Expressions
  import opened Programs
  import opened Inliner
  import opened InlinerNames

  /** A temporary, or a numbered form of one of the tail's locals. */
  ghost predicate MadeUp(c: Candidate, y: string) {
    TEMP <= y || exists d, i: nat :: d in Declared(c.tail) && i >= 2 && y == Numbered(d, i)
  }

  /** The names that blocks inside a statement list declare. */
  function InnerLocals(ss: seq<Stmt>): set<string> {
    if ss == [] then {} else InnerLocalsOf(ss[0]) + InnerLocals(ss[1..])
  }

  function InnerLocalsOf(s: Stmt): set<string> {
    match s
    case If(_, a, b) => LocalsStmts(a) + LocalsStmts(b)
    case While(_, b) => LocalsStmts(b)
    case _ => {}
  }

  /** The names declared in blocks of their own where the call was; with guards the tail is one. */
  function BlockLocals(c: Candidate): set<string> {
    if c.guards == [] then InnerLocals(c.tail) else LocalsStmts(c.tail)
  }

  ghost predicate PlainHelper(c: Candidate) {
    && Outside(c.f) !! LocalsStmts(c.f.body)
    && ArgNames(c.guards) !! Elements(Declared(c.tail))
    && forall y :: y in Outside(c.f) || y in BlockLocals(c) ==> !MadeUp(c, y)
  }

  // ----- the names the inliner makes up -----

  lemma {:induction false} TempMade(x: string, taken: set<string>)
    ensures TEMP <= FreshName(TEMP + x, taken)
  {
    var y := FreshName(TEMP + x, taken);
    if y != TEMP + x {
      var j: nat :| j >= 2 && y == Numbered(TEMP + x, j);
      assert y == TEMP + (x + "_" + Digits(j));
    }
  }

  lemma {:induction false} PlanMade(c: Candidate, args: seq<Expr>, i: nat, taken: set<string>)
    requires i <= |c.f.params|
    ensures forall y :: y in PlanFrom(c, args, i, taken).added ==> TEMP <= y
    decreases |c.f.params| - i
  {
    hide FreeBlock, FreshName;
    if i < |c.f.params| {
      var temp := FreshName(TEMP + c.f.params[i], taken);
      TempMade(c.f.params[i], taken);
      PlanMade(c, args, i + 1, taken);
      PlanMade(c, args, i + 1, taken + {temp});
    }
  }

  ghost predicate NumberedOf(ds: seq<string>, y: string) {
    exists d, i: nat :: d in ds && i >= 2 && y == Numbered(d, i)
  }

  /** Renamed locals get numbered names, and all names are the locals' own or numbered ones. */
  ghost predicate LocalsFrom(ds: seq<string>, r: (Sub, seq<string>)) {
    && (forall x :: x in r.0 ==> r.0[x].ToVar? && NumberedOf(ds, r.0[x].t))
    && (forall y :: y in r.1 ==> y in ds || NumberedOf(ds, y))
  }

  lemma {:induction false} MoreLocals(ds: seq<string>, r: (Sub, seq<string>), now: (Sub, seq<string>), name: string)
    requires ds != [] && LocalsFrom(ds[1..], r) && now.1 == [name] + r.1
    requires (name == ds[0] && now.0 == r.0) || (NumberedOf(ds, name) && now.0 == r.0[ds[0] := ToVar(name)])
    ensures LocalsFrom(ds, now)
  {
    forall y | NumberedOf(ds[1..], y) ensures NumberedOf(ds, y) {
      var d, i: nat :| d in ds[1..] && i >= 2 && y == Numbered(d, i);
      assert d in ds;
    }
  }

  lemma {:induction false} LocalsMade(ds: seq<string>, taken: set<string>)
    ensures LocalsFrom(ds, RenameLocals(ds, taken))
  {
    hide LocalsFrom, FreshNumbered;
    if ds != [] {
      var other := FreshName(ds[0], taken);
      var now := RenameLocals(ds, taken);
      if ds[0] in taken {
        LocalsMade(ds[1..], taken + {other});
        FreshIsNumbered(ds, taken);
        MoreLocals(ds, RenameLocals(ds[1..], taken + {other}), now, other);
      } else {
        LocalsMade(ds[1..], taken + {ds[0]});
        MoreLocals(ds, RenameLocals(ds[1..], taken + {ds[0]}), now, ds[0]);
      }
    } else {
      NoLocals(RenameLocals(ds, taken));
    }
  }

  lemma {:induction false} NoLocals(r: (Sub, seq<string>))
    requires r == (map[], [])
    ensures LocalsFrom([], r)
  {
  }

  lemma {:induction false} FreshIsNumbered(ds: seq<string>, taken: set<string>)
    requires ds != [] && ds[0] in taken
    ensures NumberedOf(ds, FreshName(ds[0], taken))
  {
    var other := FreshNumbered(ds[0], 2, taken);
    var j: nat :| j >= 2 && other == Numbered(ds[0], j);
    assert ds[0] in ds;
  }

  lemma {:induction false} SiteMade(c: Candidate, args: seq<Expr>, taken: set<string>)
    ensures forall x :: x in SiteSub(c, args, taken) && SiteSub(c, args, taken)[x].ToVar? ==>
          MadeUp(c, SiteSub(c, args, taken)[x].t)
    ensures forall y :: y in SiteNames(c, args, taken) ==> y in Declared(c.tail) || MadeUp(c, y)
  {
    var plan := SitePlan(c, args, taken);
    var (ren, names) := SiteRenames(c, args, taken);
    PlanMade(c, args, 0, taken);
    PlanNames(c, args, 0, taken);
    LocalsMade(Declared(c.tail), taken + Elements(plan.added));
    assert (ren, names) == RenameLocals(Declared(c.tail), taken + Elements(plan.added));
    assert forall x :: x in ren ==> ren[x].ToVar? && NumberedOf(Declared(c.tail), ren[x].t);
    forall y | NumberedOf(Declared(c.tail), y) ensures MadeUp(c, y) {
      var d, i: nat :| d in Declared(c.tail) && i >= 2 && y == Numbered(d, i);
    }
    forall x | x in SiteSub(c, args, taken) && SiteSub(c, args, taken)[x].ToVar?
      ensures MadeUp(c, SiteSub(c, args, taken)[x].t)
    {
      if c.guards == [] && x in ren {
        assert SiteSub(c, args, taken)[x] == ren[x];
        assert NumberedOf(Declared(c.tail), ren[x].t);
      } else {
        assert SiteSub(c, args, taken)[x] == plan.sub[x];
        assert plan.sub[x].t in plan.added;
      }
    }
  }

  // ----- capture -----

  ghost predicate TargetsAvoid(s: Sub, names: set<string>) {
    forall x :: x in s && s[x].ToVar? ==> s[x].t !in names
  }

  lemma {:induction false} LocalsInclude(ss: seq<Stmt>)
    ensures Elements(Declared(ss)) + InnerLocals(ss) == LocalsStmts(ss)
  {
    if ss != [] {
      LocalsInclude(ss[1..]);
    }
  }

  lemma {:induction false} Uncaptured(s: Sub, ss: seq<Stmt>)
    requires TargetsAvoid(s, InnerLocals(ss))
    ensures NoCapture(s, ss)
    decreases ss, 0
  {
    if ss != [] {
      UncapturedStmt(s, ss[0]);
      Uncaptured(s, ss[1..]);
    }
  }

  lemma {:induction false} UncapturedStmt(s: Sub, st: Stmt)
    requires TargetsAvoid(s, InnerLocalsOf(st))
    ensures NoCaptureStmt(s, st)
    decreases st, 0
  {
    match st
    case If(_, a, b) =>
      UncapturedBlock(s, a);
      UncapturedBlock(s, b);
    case While(_, b) => UncapturedBlock(s, b);
    case _ =>
  }

  lemma {:induction false} UncapturedBlock(s: Sub, ss: seq<Stmt>)
    requires TargetsAvoid(s, LocalsStmts(ss))
    ensures NoCaptureBlock(s, ss)
    decreases ss, 1
  {
    LocalsInclude(ss);
    Uncaptured(s - Elements(Declared(ss)), ss);
  }

  // ----- clean call sites -----

  lemma {:induction false} OutsideIsFree(f: Fun)
    requires Outside(f) !! LocalsStmts(f.body)
    ensures Outside(f) <= FreeNames(f)
  {
    FreeAreNames(f.body);
  }

  lemma {:induction false} PlainSite(c: Candidate, args: seq<Expr>, scope: set<string>, taken: set<string>)
    requires PlainHelper(c) && FreeNames(c.f) !! scope && Elements(Declared(c.tail)) <= LocalsStmts(c.f.body)
    ensures CleanSite(c, args, scope, taken)
  {
    hide SiteNames, SiteSub, MadeUp, FreeNames, NoCapture, NoCaptureBlock;
    OutsideIsFree(c.f);
    SiteMade(c, args, taken);
    forall y | y in Elements(SiteNames(c, args, taken)) ensures y !in Outside(c.f) {
      assert y in Declared(c.tail) ==> y in Elements(Declared(c.tail));
    }
    if c.guards == [] {
      Uncaptured(SiteSub(c, args, taken), c.tail);
    } else {
      UncapturedBlock(SiteSub(c, args, taken), c.tail);
    }
  }

  lemma {:induction false} PlainHere(c: Candidate, ss: seq<Stmt>, scope: set<string>, taken: set<string>)
    requires PlainHelper(c) && SitesOk(c, ss, scope) && Elements(Declared(c.tail)) <= LocalsStmts(c.f.body)
    ensures CleanHere(c, ss, scope, taken)
    decreases |ss|
  {
    hide PlainHelper, CleanSite, SiteNames, FreeNames;
    if ss != [] {
      if IsSite(Some(c), ss[0]) {
        assert SitesOkStmt(c, ss[0], scope);
        PlainSite(c, ss[0].args, scope, taken);
        PlainHere(c, ss[1..], scope, taken + Elements(SiteNames(c, ss[0].args, taken)));
      } else {
        PlainHere(c, ss[1..], scope, taken);
      }
    }
  }

  lemma {:induction false} PlainBelow(c: Candidate, ss: seq<Stmt>, scope: set<string>)
    requires PlainHelper(c) && SitesOk(c, ss, scope) && Elements(Declared(c.tail)) <= LocalsStmts(c.f.body)
    ensures CleanBelow(c, ss, scope)
    decreases ss, 0
  {
    hide PlainHelper;
    if ss != [] {
      PlainBelowStmt(c, ss[0], scope);
      PlainBelow(c, ss[1..], scope);
    }
  }

  lemma {:induction false} PlainBelowStmt(c: Candidate, s: Stmt, scope: set<string>)
    requires PlainHelper(c) && SitesOkStmt(c, s, scope) && Elements(Declared(c.tail)) <= LocalsStmts(c.f.body)
    ensures CleanBelowStmt(c, s, scope)
    decreases s, 0
  {
    hide PlainHelper;
    match s
    case If(_, a, b) =>
      PlainBlock(c, a, scope);
      PlainBlock(c, b, scope);
    case While(_, b) => PlainBlock(c, b, scope);
    case _ =>
  }

  lemma {:induction false} PlainBlock(c: Candidate, ss: seq<Stmt>, scope: set<string>)
    requires PlainHelper(c) && SitesOkBlock(c, ss, scope) && Elements(Declared(c.tail)) <= LocalsStmts(c.f.body)
    ensures CleanBlock(c, ss, scope)
    decreases ss, 1
  {
    PlainHere(c, ss, scope + Elements(Declared(ss)), StmtsNames(ss));
    PlainBelow(c, ss, scope + Elements(Declared(ss)));
  }

  lemma {:induction false} TailLocals(body: seq<Stmt>)
    ensures LocalsStmts(body[|LeadingGuards(body)|..]) <= LocalsStmts(body)
    decreases |body|
  {
    if LeadingGuards(body) != [] {
      TailLocals(body[1..]);
      assert body[1..][|LeadingGuards(body[1..])|..] == body[|LeadingGuards(body)|..];
    } else {
      assert body[0..] == body;
    }
  }

  /** A helper that the analysis accepts is inlined cleanly if its text is plain. */
  lemma {:induction false} PlainIsHygienic(p: Program, c: Candidate, maxStatements: nat)
    requires Analyze(p, c.f, maxStatements) == Some(c) && PlainHelper(c)
    ensures Hygienic(p, c)
  {
    hide PlainHelper, CleanBlock;
    assert ArgNames(c.guards) !! Elements(Declared(c.tail)) by {
      PlainGuards(c);
    }
    TailLocals(c.f.body);
    DeclaredAreNames(c.tail);
    forall g | g in p.funs ensures CleanBlock(c, g.body, Elements(g.params)) {
      assert SitesOkBlock(c, g.body, Elements(g.params));
      PlainBlock(c, g.body, Elements(g.params));
    }
  }

  lemma {:induction false} PlainGuards(c: Candidate)
    requires PlainHelper(c)
    ensures ArgNames(c.guards) !! Elements(Declared(c.tail))
  {
  }
}
