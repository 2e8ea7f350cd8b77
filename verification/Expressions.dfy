/**
 The expression language the inliner works on, with its meaning.

 Leaves carry the source position they were written at.  A value may depend on
 everything that happened before it was computed: `World.op` sees the whole
 history of earlier effects, so calls, getters and Proxy traps with arbitrary
 side effects are all instances of `Op`.
 */
module Expressions {
  import opened Basics

  datatype Value =
    | Undefined
    | Null
    | Bool(b: bool)
    | Num(n: int)
    | NaN
    | Str(s: string)
    | Obj(ref: nat)

  predicate Truthy(v: Value) {
    match v
    case Undefined => false
    case Null => false
    case Bool(b) => b
    case Num(n) => n != 0
    case NaN => false
    case Str(s) => s != ""
    case Obj(_) => true
  }

  datatype Outcome = Norm(v: Value) | Thrown(error: Value)

  datatype Order = Less | NotLess | Unordered

  datatype Event = Event(f: string, left: Value, right: Value)

  /** What the program cannot see: effects, and the comparison of values.
      `less` answers Unordered when a NaN is involved. */
  datatype World = World(
    op: (seq<Event>, string, Value, Value) -> Outcome,
    less: (Value, Value) -> Order,
    loose: (Value, Value) -> bool)

  datatype Comparator = StrictEq | StrictNe | LooseEq | LooseNe | Lt | Gt | Le | Ge {
    predicate Ordering() { Lt? || Gt? || Le? || Ge? }
  }

  datatype Expr =
    | Lit(pos: nat, v: Value)
    | Var(pos: nat, x: string)
    | Op(pos: nat, f: string, l: Expr, r: Expr)
    | Paren(e: Expr)
    | Not(e: Expr)
    | Compare(cmp: Comparator, l: Expr, r: Expr)
    | And(l: Expr, r: Expr)
    | Or(l: Expr, r: Expr)
    | Assign(x: string, e: Expr)

  /** A variable name denotes a heap cell; a cell without a value is a `let` or
      `const` whose declaration has not run yet. */
  type Env = map<string, nat>
  datatype State = State(heap: seq<Option<Value>>, hist: seq<Event>)

  const REFERENCE_ERROR := Str("ReferenceError")

  function Read(x: string, env: Env, st: State): Outcome {
    if x in env && env[x] < |st.heap| && st.heap[env[x]].Some?
    then Norm(st.heap[env[x]].value)
    else Thrown(REFERENCE_ERROR)
  }

  function Store(x: string, v: Value, env: Env, st: State): (Outcome, State) {
    if x in env && env[x] < |st.heap| && st.heap[env[x]].Some?
    then (Norm(v), st.(heap := st.heap[env[x] := Some(v)]))
    else (Thrown(REFERENCE_ERROR), st)
  }

  /** The ordering comparisons all go through `less`, with the operands swapped
      for > and <=; an unordered pair makes every one of them false. */
  predicate Holds(w: World, c: Comparator, a: Value, b: Value) {
    match c
    case StrictEq => a == b && a != NaN
    case StrictNe => !(a == b && a != NaN)
    case LooseEq => w.loose(a, b)
    case LooseNe => !w.loose(a, b)
    case Lt => w.less(a, b) == Less
    case Gt => w.less(b, a) == Less
    case Le => w.less(b, a) == NotLess
    case Ge => w.less(a, b) == NotLess
  }

  /** Whether a comparison has an ordered pair of operands. */
  predicate OrderedPair(w: World, c: Comparator, a: Value, b: Value) {
    match c
    case Lt => w.less(a, b) != Unordered
    case Ge => w.less(a, b) != Unordered
    case Gt => w.less(b, a) != Unordered
    case Le => w.less(b, a) != Unordered
    case _ => true
  }

  function Eval(w: World, e: Expr, env: Env, st: State): (Outcome, State) {
    match e
    case Lit(_, v) => (Norm(v), st)
    case Var(_, x) => (Read(x, env, st), st)
    case Op(_, f, l, r) =>
      var (a, st1) := Eval(w, l, env, st);
      if a.Thrown? then (a, st1) else
      var (b, st2) := Eval(w, r, env, st1);
      if b.Thrown? then (b, st2) else
      (w.op(st2.hist, f, a.v, b.v), st2.(hist := st2.hist + [Event(f, a.v, b.v)]))
    case Paren(e1) => Eval(w, e1, env, st)
    case Not(e1) =>
      var (a, st1) := Eval(w, e1, env, st);
      if a.Thrown? then (a, st1) else (Norm(Bool(!Truthy(a.v))), st1)
    case Compare(c, l, r) =>
      var (a, st1) := Eval(w, l, env, st);
      if a.Thrown? then (a, st1) else
      var (b, st2) := Eval(w, r, env, st1);
      if b.Thrown? then (b, st2) else
      (Norm(Bool(Holds(w, c, a.v, b.v))), st2)
    case And(l, r) =>
      var (a, st1) := Eval(w, l, env, st);
      if a.Thrown? || !Truthy(a.v) then (a, st1) else Eval(w, r, env, st1)
    case Or(l, r) =>
      var (a, st1) := Eval(w, l, env, st);
      if a.Thrown? || Truthy(a.v) then (a, st1) else Eval(w, r, env, st1)
    case Assign(x, e1) =>
      var (a, st1) := Eval(w, e1, env, st);
      if a.Thrown? then (a, st1) else Store(x, a.v, env, st1)
  }

  /** The source positions of the leaves and operations evaluated, in order. */
  function Log(w: World, e: Expr, env: Env, st: State): seq<nat> {
    match e
    case Lit(p, _) => [p]
    case Var(p, _) => [p]
    case Op(p, f, l, r) =>
      var (a, st1) := Eval(w, l, env, st);
      if a.Thrown? then Log(w, l, env, st) else
      var (b, _) := Eval(w, r, env, st1);
      Log(w, l, env, st) + Log(w, r, env, st1) + (if b.Thrown? then [] else [p])
    case Paren(e1) => Log(w, e1, env, st)
    case Not(e1) => Log(w, e1, env, st)
    case Compare(_, l, r) =>
      var (a, st1) := Eval(w, l, env, st);
      Log(w, l, env, st) + (if a.Thrown? then [] else Log(w, r, env, st1))
    case And(l, r) =>
      var (a, st1) := Eval(w, l, env, st);
      Log(w, l, env, st) + (if a.Thrown? || !Truthy(a.v) then [] else Log(w, r, env, st1))
    case Or(l, r) =>
      var (a, st1) := Eval(w, l, env, st);
      Log(w, l, env, st) + (if a.Thrown? || Truthy(a.v) then [] else Log(w, r, env, st1))
    case Assign(_, e1) => Log(w, e1, env, st)
  }

  /** Every source position in an expression. */
  function Positions(e: Expr): set<nat> {
    match e
    case Lit(p, _) => {p}
    case Var(p, _) => {p}
    case Op(p, _, l, r) => {p} + Positions(l) + Positions(r)
    case Paren(e1) => Positions(e1)
    case Not(e1) => Positions(e1)
    case Compare(_, l, r) => Positions(l) + Positions(r)
    case And(l, r) => Positions(l) + Positions(r)
    case Or(l, r) => Positions(l) + Positions(r)
    case Assign(_, e1) => Positions(e1)
  }

  /** No two operands of a connective share a position: true of any source text. */
  ghost predicate DistinctPositions(e: Expr) {
    match e
    case Paren(e1) => DistinctPositions(e1)
    case And(l, r) => Positions(l) !! Positions(r) && DistinctPositions(l) && DistinctPositions(r)
    case Or(l, r) => Positions(l) !! Positions(r) && DistinctPositions(l) && DistinctPositions(r)
    case _ => true
  }

  /** Every identifier an expression mentions. */
  function Names(e: Expr): set<string> {
    match e
    case Lit(_, _) => {}
    case Var(_, x) => {x}
    case Op(_, _, l, r) => Names(l) + Names(r)
    case Paren(e1) => Names(e1)
    case Not(e1) => Names(e1)
    case Compare(_, l, r) => Names(l) + Names(r)
    case And(l, r) => Names(l) + Names(r)
    case Or(l, r) => Names(l) + Names(r)
    case Assign(x, e1) => {x} + Names(e1)
  }

  lemma LogIsNonEmpty(w: World, e: Expr, env: Env, st: State)
    ensures Log(w, e, env, st) != []
  {
  }

  lemma {:induction false} LogWithinPositions(w: World, e: Expr, env: Env, st: State)
    ensures forall p :: p in Log(w, e, env, st) ==> p in Positions(e)
  {
    match e
    case Lit(_, _) =>
    case Var(_, _) =>
    case Op(_, _, l, r) =>
      LogWithinPositions(w, l, env, st);
      LogWithinPositions(w, r, env, Eval(w, l, env, st).1);
    case Paren(e1) => LogWithinPositions(w, e1, env, st);
    case Not(e1) => LogWithinPositions(w, e1, env, st);
    case Compare(_, l, r) =>
      LogWithinPositions(w, l, env, st);
      LogWithinPositions(w, r, env, Eval(w, l, env, st).1);
    case And(l, r) =>
      LogWithinPositions(w, l, env, st);
      LogWithinPositions(w, r, env, Eval(w, l, env, st).1);
    case Or(l, r) =>
      LogWithinPositions(w, l, env, st);
      LogWithinPositions(w, r, env, Eval(w, l, env, st).1);
    case Assign(_, e1) => LogWithinPositions(w, e1, env, st);
  }
}
