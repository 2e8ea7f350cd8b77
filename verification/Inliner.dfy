/**
 The strict-mode inliner: choosing names, planning one call site, rewriting every
 call site of a helper, and the conditions `analyze` checks before it does.
 */
module Inliner {
  import opened Basics
  import opened Expressions
  import opened GuardText
  import opened GuardInversion
  import opened Programs

  // ----- fresh names -----

  function Digits(n: nat): string {
    if n < 10 then [['0', '1', '2', '3', '4', '5', '6', '7', '8', '9'][n]]
    else Digits(n / 10) + Digits(n % 10)
  }

  function Numbered(base: string, i: nat): string { base + "_" + Digits(i) }

  lemma {:induction false} DigitsInjective(m: nat, n: nat)
    requires Digits(m) == Digits(n)
    ensures m == n
  {
    if m >= 10 && n >= 10 {
      var a, b := Digits(m / 10), Digits(n / 10);
      assert Digits(m)[..|Digits(m)| - 1] == a;
      assert Digits(n)[..|Digits(n)| - 1] == b;
      DigitsInjective(m / 10, n / 10);
      assert Digits(m)[|Digits(m)| - 1] == Digits(m % 10)[0];
      assert Digits(n)[|Digits(n)| - 1] == Digits(n % 10)[0];
      DigitsInjective(m % 10, n % 10);
    } else {
      DigitsLength(m);
      DigitsLength(n);
    }
  }

  lemma DigitsLength(n: nat)
    ensures |Digits(n)| >= 1 && (n >= 10 ==> |Digits(n)| >= 2)
  {
  }

  lemma {:induction false} NumberedInjective(base: string, i: nat, j: nat)
    requires Numbered(base, i) == Numbered(base, j)
    ensures i == j
  {
    assert Numbered(base, i)[|base| + 1..] == Digits(i);
    assert Numbered(base, j)[|base| + 1..] == Digits(j);
    DigitsInjective(i, j);
  }

  ghost function NumberedFrom(base: string, i: nat, taken: set<string>): set<string> {
    set t | t in taken && exists j: nat :: j >= i && Numbered(base, j) == t
  }

  lemma {:induction false} NumberedFromShrinks(base: string, i: nat, taken: set<string>)
    requires Numbered(base, i) in taken
    ensures NumberedFrom(base, i + 1, taken) < NumberedFrom(base, i, taken)
  {
    var a, b := NumberedFrom(base, i + 1, taken), NumberedFrom(base, i, taken);
    assert Numbered(base, i) in b;
    if Numbered(base, i) in a {
      var j: nat :| j >= i + 1 && Numbered(base, j) == Numbered(base, i);
      NumberedInjective(base, i, j);
    }
  }

  function FreshNumbered(base: string, i: nat, taken: set<string>): (r: string)
    ensures r !in taken
    ensures exists j: nat ::
      j >= i && r == Numbered(base, j) && forall k: nat :: i <= k < j ==> Numbered(base, k) in taken
    decreases NumberedFrom(base, i, taken)
  {
    if Numbered(base, i) !in taken then Numbered(base, i)
    else
      NumberedFromShrinks(base, i, taken);
      FreshNumbered(base, i + 1, taken)
  }

  function FreshName(base: string, taken: set<string>): (r: string)
    ensures r !in taken
    ensures base !in taken ==> r == base
  {
    if base !in taken then base else FreshNumbered(base, 2, taken)
  }

  /** The search as the source runs it: `base`, then `base_2`, `base_3`, ... */
  method FindFreshName(base: string, taken: set<string>) returns (r: string)
    ensures r == FreshName(base, taken)
  {
    if base !in taken {
      return base;
    }
    var i: nat := 2;
    r := Numbered(base, i);
    while r in taken
      invariant i >= 2 && r == Numbered(base, i)
      invariant FreshNumbered(base, 2, taken) == FreshNumbered(base, i, taken)
      decreases NumberedFrom(base, i, taken)
    {
      NumberedFromShrinks(base, i, taken);
      i := i + 1;
      r := Numbered(base, i);
    }
  }

  // ----- substitution -----

  datatype Target = ToVar(t: string) | ToUndefined
  type Sub = map<string, Target>

  function SubE(e: Expr, s: Sub): Expr {
    match e
    case Lit(_, _) => e
    case Var(p, x) => if x !in s then e else if s[x].ToVar? then Var(p, s[x].t) else Lit(p, Undefined)
    case Op(p, f, l, r) => Op(p, f, SubE(l, s), SubE(r, s))
    case Paren(e1) => Paren(SubE(e1, s))
    case Not(e1) => Not(SubE(e1, s))
    case Compare(c, l, r) => Compare(c, SubE(l, s), SubE(r, s))
    case And(l, r) => And(SubE(l, s), SubE(r, s))
    case Or(l, r) => Or(SubE(l, s), SubE(r, s))
    case Assign(x, e1) => Assign(Renamed(x, s), SubE(e1, s))
  }

  function Renamed(x: string, s: Sub): string {
    if x in s && s[x].ToVar? then s[x].t else x
  }

  function SubArgs(es: seq<Expr>, s: Sub): (r: seq<Expr>)
    ensures |r| == |es|
  {
    if es == [] then [] else [SubE(es[0], s)] + SubArgs(es[1..], s)
  }

  // ----- one call site -----

  datatype Candidate = Candidate(f: Fun, guards: seq<Expr>, tail: seq<Stmt>) {
    predicate Used(x: string) { x in FreeBlock(f.body) }
  }

  datatype Plan = Plan(prefix: seq<Stmt>, sub: Sub, added: seq<string>)

  const TEMP := "__inl_"

  /** Parameters from index i on: used arguments become constants in source order,
      unused ones are kept for their effect unless they are literals. */
  function PlanFrom(c: Candidate, args: seq<Expr>, i: nat, taken: set<string>): Plan
    requires i <= |c.f.params|
    decreases |c.f.params| - i
  {
    if i == |c.f.params| then Plan([], map[], [])
    else
      var x := c.f.params[i];
      if !c.Used(x) then
        var rest := PlanFrom(c, args, i + 1, taken);
        if i < |args| && !Unwrap(args[i]).Lit? then rest.(prefix := [ExprS(args[i])] + rest.prefix) else rest
      else if i >= |args| then
        var rest := PlanFrom(c, args, i + 1, taken);
        rest.(sub := rest.sub[x := ToUndefined])
      else
        var temp := FreshName(TEMP + x, taken);
        var rest := PlanFrom(c, args, i + 1, taken + {temp});
        Plan([Decl(temp, args[i])] + rest.prefix, rest.sub[x := ToVar(temp)], [temp] + rest.added)
  }

  function RenameLocals(ds: seq<string>, taken: set<string>): (r: (Sub, seq<string>))
    ensures |r.1| == |ds|
  {
    if ds == [] then (map[], [])
    else if ds[0] !in taken then
      var rest := RenameLocals(ds[1..], taken + {ds[0]});
      (rest.0, [ds[0]] + rest.1)
    else
      var other := FreshName(ds[0], taken);
      var rest := RenameLocals(ds[1..], taken + {other});
      (rest.0[ds[0] := ToVar(other)], [other] + rest.1)
  }

  ghost function Joined(front: Plan, back: Plan): Plan {
    Plan(front.prefix + back.prefix, back.sub + front.sub, front.added + back.added)
  }

  /** What one parameter contributes. */
  ghost function StepPlan(c: Candidate, args: seq<Expr>, i: nat, taken: set<string>): Plan
    requires i < |c.f.params|
  {
    var x := c.f.params[i];
    if !c.Used(x) then
      Plan(if i < |args| && !Unwrap(args[i]).Lit? then [ExprS(args[i])] else [], map[], [])
    else if i >= |args| then Plan([], map[x := ToUndefined], [])
    else
      var temp := FreshName(TEMP + x, taken);
      Plan([Decl(temp, args[i])], map[x := ToVar(temp)], [temp])
  }

  lemma {:induction false} PlanStep(c: Candidate, args: seq<Expr>, i: nat, taken: set<string>)
    requires i < |c.f.params|
    ensures var step := StepPlan(c, args, i, taken);
      PlanFrom(c, args, i, taken) == Joined(step, PlanFrom(c, args, i + 1, taken + Elements(step.added)))
  {
    hide FreshName, FreeBlock;
    var step := StepPlan(c, args, i, taken);
    if step.added == [] {
      assert taken + {} == taken && Elements<string>([]) == {};
    } else {
      assert Elements(step.added) == {step.added[0]};
    }
    var rest := PlanFrom(c, args, i + 1, taken + Elements(step.added));
    assert [] + rest.prefix == rest.prefix && [] + rest.added == rest.added && rest.sub + map[] == rest.sub;
    assert forall t: Target :: rest.sub + map[c.f.params[i] := t] == rest.sub[c.f.params[i] := t];
  }

  lemma {:induction false} JoinedAssociates(a: Plan, b: Plan, c: Plan)
    ensures Joined(a, Joined(b, c)) == Joined(Joined(a, b), c)
  {
    assert a.prefix + (b.prefix + c.prefix) == (a.prefix + b.prefix) + c.prefix;
    assert a.added + (b.added + c.added) == (a.added + b.added) + c.added;
    assert (c.sub + b.sub) + a.sub == c.sub + (b.sub + a.sub);
  }

  /** Appending one parameter's contribution to the plan so far. */
  lemma {:induction false} StepAppends(c: Candidate, args: seq<Expr>, i: nat, taken: set<string>, before: Plan)
    requires i < |c.f.params| && c.f.params[i] !in before.sub
    ensures var x, step := c.f.params[i], StepPlan(c, args, i, taken);
      && Elements((before.added + step.added)) == Elements(before.added) + Elements(step.added)
      && Joined(before, step) ==
        if !c.Used(x) then
          if i < |args| && !Unwrap(args[i]).Lit? then before.(prefix := before.prefix + [ExprS(args[i])]) else before
        else if i >= |args| then before.(sub := before.sub[x := ToUndefined])
        else
          var temp := FreshName(TEMP + x, taken);
          Plan(before.prefix + [Decl(temp, args[i])], before.sub[x := ToVar(temp)], before.added + [temp])
    ensures Elements(StepPlan(c, args, i, taken).added) ==
      if c.Used(c.f.params[i]) && i < |args| then {FreshName(TEMP + c.f.params[i], taken)} else {}
  {
    hide FreshName, FreeBlock, Unwrap;
    var none: Sub := map[];
    assert before.prefix + [] == before.prefix && before.added + [] == before.added && none + before.sub == before.sub;
    assert forall t: Target :: map[c.f.params[i] := t] + before.sub == before.sub[c.f.params[i] := t];
  }

  /** The plan as the source builds it: one pass over the parameters, while the
      names already taken grow. */
  method BuildPlan(c: Candidate, args: seq<Expr>, taken: set<string>) returns (plan: Plan, reserved: set<string>)
    requires NoDup(c.f.params)
    ensures plan == PlanFrom(c, args, 0, taken) && reserved == taken + Elements(plan.added)
  {
    hide FreshName, FreeBlock, PlanFrom, Unwrap, Joined, StepPlan, Elements;
    plan := Plan([], map[], []);
    reserved := taken;
    ghost var whole := PlanFrom(c, args, 0, taken);
    JoinedEmpty(whole, taken);
    for i := 0 to |c.f.params|
      invariant whole == Joined(plan, PlanFrom(c, args, i, reserved))
      invariant reserved == taken + Elements(plan.added)
      invariant forall y :: y in plan.sub ==> y in c.f.params[..i]
    {
      var x := c.f.params[i];
      ghost var step := StepPlan(c, args, i, reserved);
      PlanStep(c, args, i, reserved);
      JoinedAssociates(plan, step, PlanFrom(c, args, i + 1, reserved + Elements(step.added)));
      assert x !in plan.sub;
      StepAppends(c, args, i, reserved, plan);
      JoinedAdded(plan, step);
      assert reserved + {} == reserved;
      if !c.Used(x) {
        if i < |args| && !Unwrap(args[i]).Lit? {
          plan := plan.(prefix := plan.prefix + [ExprS(args[i])]);
        }
      } else if i >= |args| {
        plan := plan.(sub := plan.sub[x := ToUndefined]);
      } else {
        var temp := FindFreshName(TEMP + x, reserved);
        plan := Plan(plan.prefix + [Decl(temp, args[i])], plan.sub[x := ToVar(temp)], plan.added + [temp]);
        reserved := reserved + {temp};
      }
    }
    PlanEnd(c, args, reserved);
    JoinedEmpty(plan, taken);
  }

  lemma {:induction false} JoinedEmpty(plan: Plan, taken: set<string>)
    ensures Joined(Plan([], map[], []), plan) == plan && Joined(plan, Plan([], map[], [])) == plan
    ensures taken + Elements([]) == taken
  {
    var none: Sub := map[];
    assert plan.sub + none == plan.sub && none + plan.sub == plan.sub;
    assert [] + plan.prefix == plan.prefix && plan.prefix + [] == plan.prefix;
    assert [] + plan.added == plan.added && plan.added + [] == plan.added;
    assert Elements<string>([]) == {};
  }

  lemma {:induction false} JoinedAdded(a: Plan, b: Plan)
    ensures Elements(Joined(a, b).added) == Elements(a.added) + Elements(b.added)
  {
  }

  lemma {:induction false} PlanEnd(c: Candidate, args: seq<Expr>, taken: set<string>)
    ensures PlanFrom(c, args, |c.f.params|, taken) == Plan([], map[], [])
  {
  }

  function SitePlan(c: Candidate, args: seq<Expr>, taken: set<string>): Plan {
    PlanFrom(c, args, 0, taken)
  }

  /** The renaming pass over the tail's own declarations, as the source runs it. */
  method RenameCollidingLocals(ds: seq<string>, taken: set<string>) returns (edits: Sub, names: seq<string>)
    requires NoDup(ds)
    ensures (edits, names) == RenameLocals(ds, taken)
  {
    hide FreshName;
    edits, names := map[], [];
    var reserved := taken;
    ghost var whole := RenameLocals(ds, taken);
    assert ds[0..] == ds && whole.0 + map[] == whole.0 && [] + whole.1 == whole.1;
    for i := 0 to |ds|
      invariant whole == (RenameLocals(ds[i..], reserved).0 + edits, names + RenameLocals(ds[i..], reserved).1)
      invariant forall y :: y in edits ==> y in ds[..i]
    {
      ghost var rest, before := RenameLocals(ds[i..], reserved), edits;
      assert ds[i..][0] == ds[i] && ds[i..][1..] == ds[i + 1..];
      assert ds[i] !in edits;
      var name := ds[i];
      if name in reserved {
        name := FindFreshName(name, reserved);
        edits := edits[ds[i] := ToVar(name)];
      }
      reserved := reserved + {name};
      ghost var later := RenameLocals(ds[i + 1..], reserved);
      assert rest.1 == [name] + later.1;
      assert names + rest.1 == (names + [name]) + later.1;
      assert rest.0 + before == later.0 + edits;
      names := names + [name];
    }
    assert ds[|ds|..] == [] && names + [] == names;
    ghost var none: Sub := map[];
    assert none + edits == edits;
  }

  function SiteRenames(c: Candidate, args: seq<Expr>, taken: set<string>): (Sub, seq<string>) {
    RenameLocals(Declared(c.tail), taken + Elements(SitePlan(c, args, taken).added))
  }

  /** The names one call site adds to the block it stands in. */
  function SiteNames(c: Candidate, args: seq<Expr>, taken: set<string>): seq<string> {
    SitePlan(c, args, taken).added + (if c.guards == [] then SiteRenames(c, args, taken).1 else [])
  }

  /** The condition read back from the text written for it. */
  function Condition(guards: seq<Expr>, s: Sub): Expr
    requires guards != []
  {
    match Parse(CombineGuards(SubArgs(guards, s)))
    case Some(e) => e
    case None => Lit(0, Undefined)
  }

  predicate IsSite(co: Option<Candidate>, s: Stmt) {
    co.Some? && s.Call? && s.g == co.value.f.name
  }

  function SiteCode(c: Candidate, s: Stmt, taken: set<string>): seq<Stmt>
    requires s.Call?
    decreases 1, s, 0
  {
    var plan := SitePlan(c, s.args, taken);
    if c.guards == [] then
      plan.prefix + RewriteStmts(None, c.tail, plan.sub + SiteRenames(c, s.args, taken).0, {})
    else
      plan.prefix + [If(Condition(c.guards, plan.sub), RewriteBlock(None, c.tail, plan.sub), [])]
  }

  // ----- every call site -----

  function Rank(co: Option<Candidate>): nat { if co.Some? then 1 else 0 }

  /** Rewrites a statement list: replaces the call sites of a candidate, and
      applies the substitution in force.  `taken` are the names of the block. */
  function RewriteStmts(co: Option<Candidate>, ss: seq<Stmt>, s: Sub, taken: set<string>): seq<Stmt>
    decreases Rank(co), ss, 0
  {
    if ss == [] then []
    else if IsSite(co, ss[0]) then
      var names := SiteNames(co.value, ss[0].args, taken);
      SiteCode(co.value, ss[0], taken) + RewriteStmts(co, ss[1..], s, taken + Elements(names))
    else [RewriteStmt(co, ss[0], s)] + RewriteStmts(co, ss[1..], s, taken)
  }

  function RewriteBlock(co: Option<Candidate>, ss: seq<Stmt>, s: Sub): seq<Stmt>
    decreases Rank(co), ss, 1
  {
    RewriteStmts(co, ss, s - Elements(Declared(ss)), StmtsNames(ss))
  }

  function RewriteStmt(co: Option<Candidate>, st: Stmt, s: Sub): Stmt
    decreases Rank(co), st, 0
  {
    match st
    case ExprS(e) => ExprS(SubE(e, s))
    case Decl(x, e) => Decl(Renamed(x, s), SubE(e, s))
    case If(c, a, b) => If(SubE(c, s), RewriteBlock(co, a, s), RewriteBlock(co, b, s))
    case While(c, b) => While(SubE(c, s), RewriteBlock(co, b, s))
    case Call(g, args) => Call(g, SubArgs(args, s))
    case Jump(_) => st
  }

  /** All names added to a statement list by the call sites directly in it. */
  function NewNames(co: Option<Candidate>, ss: seq<Stmt>, taken: set<string>): seq<string> {
    if ss == [] then []
    else if IsSite(co, ss[0]) then
      var names := SiteNames(co.value, ss[0].args, taken);
      names + NewNames(co, ss[1..], taken + Elements(names))
    else NewNames(co, ss[1..], taken)
  }

  function RewriteFuns(c: Candidate, funs: seq<Fun>): seq<Fun> {
    if funs == [] then []
    else if funs[0].name == c.f.name then RewriteFuns(c, funs[1..])
    else [funs[0].(body := RewriteBlock(Some(c), funs[0].body, map[]))] + RewriteFuns(c, funs[1..])
  }

  /** The whole module with one helper inlined everywhere and removed. */
  function InlineInto(p: Program, c: Candidate): Program {
    p.(funs := RewriteFuns(c, p.funs))
  }

  // ----- analysis -----

  predicate IsGuard(s: Stmt) {
    s.If? && s.els == [] && s.thn == [Jump(Return)]
  }

  function LeadingGuards(body: seq<Stmt>): (r: seq<Expr>)
    ensures |r| <= |body|
  {
    if body != [] && IsGuard(body[0]) then [body[0].c] + LeadingGuards(body[1..]) else []
  }

  predicate CallsNone(ss: seq<Stmt>, g: string) {
    ss == [] || (CallsNoneStmt(ss[0], g) && CallsNone(ss[1..], g))
  }

  predicate CallsNoneStmt(s: Stmt, g: string) {
    match s
    case If(_, a, b) => CallsNone(a, g) && CallsNone(b, g)
    case While(_, b) => CallsNone(b, g)
    case Call(h, _) => h != g
    case _ => true
  }

  /** No `return` at all, and no `break` or `continue` that leaves the list. */
  predicate NoEscape(ss: seq<Stmt>, inLoop: bool) {
    ss == [] || (NoEscapeStmt(ss[0], inLoop) && NoEscape(ss[1..], inLoop))
  }

  predicate NoEscapeStmt(s: Stmt, inLoop: bool) {
    match s
    case If(_, a, b) => NoEscape(a, inLoop) && NoEscape(b, inLoop)
    case While(_, b) => NoEscape(b, true)
    case Jump(kind) => kind != Return && inLoop
    case _ => true
  }

  /** Every call site passes at most as many arguments as there are parameters,
      and no scope around it declares a name the helper takes from outside. */
  predicate SitesOk(c: Candidate, ss: seq<Stmt>, scope: set<string>)
    decreases ss, 0
  {
    ss == [] || (SitesOkStmt(c, ss[0], scope) && SitesOk(c, ss[1..], scope))
  }

  predicate SitesOkBlock(c: Candidate, ss: seq<Stmt>, scope: set<string>)
    decreases ss, 1
  {
    SitesOk(c, ss, scope + Elements(Declared(ss)))
  }

  predicate SitesOkStmt(c: Candidate, s: Stmt, scope: set<string>)
    decreases s, 0
  {
    match s
    case If(_, a, b) => SitesOkBlock(c, a, scope) && SitesOkBlock(c, b, scope)
    case While(_, b) => SitesOkBlock(c, b, scope)
    case Call(g, args) => g == c.f.name ==> |args| <= |c.f.params| && FreeNames(c.f) !! scope
    case _ => true
  }

  /** Identifiers of the body that are not declared anywhere in the helper. */
  function FreeNames(f: Fun): set<string> {
    StmtsNames(f.body) - Elements(f.params) - LocalsStmts(f.body)
  }

  /** Splits a helper into guards and tail, if it may be inlined. */
  function Analyze(p: Program, f: Fun, maxStatements: nat): Option<Candidate> {
    var guards := LeadingGuards(f.body);
    var tail := f.body[|guards|..];
    var c := Candidate(f, guards, tail);
    if f.exported then None
    else if !CallsNone(f.body, f.name) then None
    else if Elements(f.params) * WritesBlock(f.body) != {} then None
    else if tail == [] || |tail| > maxStatements then None
    else if !NoEscape(tail, false) then None
    else if exists g :: g in p.funs && !SitesOkBlock(c, g.body, Elements(g.params)) then None
    else if forall g :: g in p.funs ==> CallsNone(g.body, f.name) then None
    else Some(c)
  }

  function FirstCandidate(p: Program, k: nat, maxStatements: nat): (r: Option<Candidate>)
    requires k <= |p.funs|
    ensures r.Some? ==> exists i :: k <= i < |p.funs| && Analyze(p, p.funs[i], maxStatements) == r
    ensures r.None? ==> forall i :: k <= i < |p.funs| ==> Analyze(p, p.funs[i], maxStatements).None?
    decreases |p.funs| - k
  {
    if k == |p.funs| then None
    else if Analyze(p, p.funs[k], maxStatements).Some? then Analyze(p, p.funs[k], maxStatements)
    else FirstCandidate(p, k + 1, maxStatements)
  }

  // ----- what the analysis does not check -----

  /** The names the helper takes from outside: what is free in its body, no matter
      whether some nested block declares the same name for itself. */
  function Outside(f: Fun): set<string> { FreeBlock(f.body) - Elements(f.params) }

  /** The substitution that one call site puts in force on the tail. */
  function SiteSub(c: Candidate, args: seq<Expr>, taken: set<string>): Sub {
    if c.guards == [] then SitePlan(c, args, taken).sub + SiteRenames(c, args, taken).0
    else SitePlan(c, args, taken).sub
  }

  /** No block declares what a name free in it is substituted by. */
  ghost predicate NoCapture(s: Sub, ss: seq<Stmt>)
    decreases ss, 0
  {
    ss == [] || (NoCaptureStmt(s, ss[0]) && NoCapture(s, ss[1..]))
  }

  ghost predicate NoCaptureStmt(s: Sub, st: Stmt)
    decreases st, 0
  {
    match st
    case If(_, a, b) => NoCaptureBlock(s, a) && NoCaptureBlock(s, b)
    case While(_, b) => NoCaptureBlock(s, b)
    case _ => true
  }

  ghost predicate NoCaptureBlock(s: Sub, ss: seq<Stmt>)
    decreases ss, 1
  {
    && (forall y :: y in FreeBlock(ss) && y in s && s[y].ToVar? ==> s[y].t !in Elements(Declared(ss)))
    && NoCapture(s - Elements(Declared(ss)), ss)
  }

  /** One call site: what the helper takes from outside is neither declared around
      the call nor added there, and nothing substituted into the tail is captured. */
  ghost predicate CleanSite(c: Candidate, args: seq<Expr>, scope: set<string>, taken: set<string>) {
    && Outside(c.f) !! scope
    && Outside(c.f) !! Elements(SiteNames(c, args, taken))
    && (if c.guards == [] then NoCapture(SiteSub(c, args, taken), c.tail)
         else NoCaptureBlock(SiteSub(c, args, taken), c.tail))
  }

  /** The call sites directly in a statement list. */
  ghost predicate CleanHere(c: Candidate, ss: seq<Stmt>, scope: set<string>, taken: set<string>) {
    if ss == [] then true
    else if IsSite(Some(c), ss[0]) then
      && CleanSite(c, ss[0].args, scope, taken)
      && CleanHere(c, ss[1..], scope, taken + Elements(SiteNames(c, ss[0].args, taken)))
    else CleanHere(c, ss[1..], scope, taken)
  }

  /** The call sites in blocks below. */
  ghost predicate CleanBelow(c: Candidate, ss: seq<Stmt>, scope: set<string>)
    decreases ss, 0
  {
    ss == [] || (CleanBelowStmt(c, ss[0], scope) && CleanBelow(c, ss[1..], scope))
  }

  ghost predicate CleanBelowStmt(c: Candidate, s: Stmt, scope: set<string>)
    decreases s, 0
  {
    match s
    case If(_, a, b) => CleanBlock(c, a, scope) && CleanBlock(c, b, scope)
    case While(_, b) => CleanBlock(c, b, scope)
    case _ => true
  }

  ghost predicate CleanBlock(c: Candidate, ss: seq<Stmt>, scope: set<string>)
    decreases ss, 1
  {
    var inner := scope + Elements(Declared(ss));
    CleanHere(c, ss, inner, StmtsNames(ss)) && CleanBelow(c, ss, inner)
  }

  /** Every call site is clean, and no guard reads a local of the tail. */
  ghost predicate Hygienic(p: Program, c: Candidate) {
    && ArgNames(c.guards) !! Elements(Declared(c.tail))
    && forall g :: g in p.funs ==> CleanBlock(c, g.body, Elements(g.params))
  }

  /** No name added to a function's own block is one of its parameters. */
  ghost predicate ParamsSpared(p: Program, c: Candidate) {
    forall g :: g in p.funs ==> Elements(NewNames(Some(c), g.body, StmtsNames(g.body))) !! Elements(g.params)
  }

  /** `negate` flips no ordering comparison in this guard. */
  ghost predicate FlipsNoOrdering(g: Expr) {
    match g
    case Paren(e) => FlipsNoOrdering(e)
    case Compare(c, _, _) => !c.Ordering()
    case And(l, r) => FlipsNoOrdering(l) && FlipsNoOrdering(r)
    case Or(l, r) => FlipsNoOrdering(l) && FlipsNoOrdering(r)
    case _ => true
  }

  /** A helper whose guards compare nothing by order. */
  ghost predicate FlipFree(c: Candidate) { forall g :: g in c.guards ==> FlipsNoOrdering(g) }
}
