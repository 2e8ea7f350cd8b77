/**
 Relating the stores of a program and of its inlined form: an injection between
 cells, kept through every step, under which related names read the same values.
 The inlined program may own further cells (its temporaries).
 */
module InlinerMemory {
  import opened Basics
  import opened Expressions
  import opened Programs
  import opened Inliner

  type Inj = map<nat, nat>

  datatype Mem = Mem(b: Inj, st: State, st': State)

  ghost predicate Related(m: Mem) {
    && m.st.hist == m.st'.hist
    && (forall l :: l in m.b ==> l < |m.st.heap| && m.b[l] < |m.st'.heap| && m.st.heap[l] == m.st'.heap[m.b[l]])
    && (forall k, l :: k in m.b && l in m.b && m.b[k] == m.b[l] ==> k == l)
  }

  /** Cells of the inlined program that no cell of the original stands for. */
  ghost predicate Apart(m: Mem, keep: set<nat>) {
    && (forall l :: l in keep ==> l < |m.st'.heap|)
    && (forall l :: l in m.b ==> m.b[l] !in keep)
  }

  /** One step of both programs: the injection only grows, by fresh cells and
      cells of `own`; unrelated cells of the original and cells in `keep` do not change. */
  ghost predicate Evolves(m0: Mem, m1: Mem, keep: set<nat>, own: set<nat>) {
    && Related(m1)
    && (forall l :: l in m0.b ==> l in m1.b && m1.b[l] == m0.b[l])
    && (forall l :: l in m1.b && l !in m0.b ==> l >= |m0.st.heap| && (m1.b[l] >= |m0.st'.heap| || m1.b[l] in own))
    && |m0.st.heap| <= |m1.st.heap| && |m0.st'.heap| <= |m1.st'.heap|
    && (forall l :: 0 <= l < |m0.st.heap| && l !in m0.b ==> m1.st.heap[l] == m0.st.heap[l])
    && (forall l :: l in keep && l < |m0.st'.heap| ==> m1.st'.heap[l] == m0.st'.heap[l])
  }

  lemma {:induction false} EvolvesRefl(m: Mem, keep: set<nat>, own: set<nat>)
    requires Related(m)
    ensures Evolves(m, m, keep, own)
  {
  }

  lemma {:induction false} EvolvesTrans(m0: Mem, m1: Mem, m2: Mem, keep: set<nat>, own: set<nat>,
                                        keep1: set<nat>, own1: set<nat>, keep2: set<nat>, own2: set<nat>)
    requires Evolves(m0, m1, keep1, own1) && Evolves(m1, m2, keep2, own2)
    requires keep <= keep1 && keep <= keep2 && own1 <= own && own2 <= own
    ensures Evolves(m0, m2, keep, own)
  {
  }

  lemma {:induction false} ApartStays(m0: Mem, m1: Mem, keep: set<nat>, keep1: set<nat>, own: set<nat>)
    requires Evolves(m0, m1, keep1, own) && Apart(m0, keep) && keep !! own
    ensures Apart(m1, keep)
  {
  }

  lemma {:induction false} RelatedAfter(m: Mem, m1: Mem, keep: set<nat>)
    requires Apart(m, keep) && Evolves(m, m1, keep, {})
    ensures Related(m1) && Apart(m1, keep)
  {
    ApartStays(m, m1, keep, keep, {});
  }

  // ----- related environments -----

  ghost predicate NameRel(s: Sub, m: Mem, env: Env, env': Env, x: string) {
    if x in s && s[x].ToUndefined? then
      x in env && env[x] < |m.st.heap| && env[x] !in m.b && m.st.heap[env[x]] == Some(Undefined)
    else
      && (x in env <==> Renamed(x, s) in env')
      && (x in env ==> env[x] in m.b && m.b[env[x]] == env'[Renamed(x, s)])
  }

  ghost predicate EnvRel(s: Sub, m: Mem, env: Env, env': Env, names: set<string>) {
    forall x :: x in names ==> NameRel(s, m, env, env', x)
  }

  lemma {:induction false} EnvRelEvolves(s: Sub, m0: Mem, m1: Mem, env: Env, env': Env, names: set<string>,
    keep: set<nat>, own: set<nat>)
    requires EnvRel(s, m0, env, env', names) && Evolves(m0, m1, keep, own)
    ensures EnvRel(s, m1, env, env', names)
  {
    forall x | x in names ensures NameRel(s, m1, env, env', x) {
      assert NameRel(s, m0, env, env', x);
    }
  }

  ghost predicate WritesRenamed(s: Sub, writes: set<string>) {
    forall x :: x in writes ==> x !in s || s[x].ToVar?
  }

  // ----- expressions -----

  /** Writing the same value to two related cells. */
  lemma {:induction false} WriteSim(m: Mem, l: nat, v: Value, keep: set<nat>)
    requires Related(m) && Apart(m, keep) && l in m.b
    ensures Evolves(m, Mem(m.b, m.st.(heap := m.st.heap[l := Some(v)]), m.st'.(heap := m.st'.heap[m.b[l] := Some(v)])),
        keep, {})
  {
  }

  lemma {:induction false} StoreSim(x: string, v: Value, s: Sub, m: Mem, env: Env, env': Env, keep: set<nat>)
    requires Related(m) && Apart(m, keep) && NameRel(s, m, env, env', x) && WritesRenamed(s, {x})
    ensures var (o, st1) := Store(x, v, env, m.st);
      var (o', st1') := Store(Renamed(x, s), v, env', m.st');
      o == o' && Evolves(m, Mem(m.b, st1, st1'), keep, {})
  {
    EvolvesRefl(m, keep, {});
    if x in env {
      WriteSim(m, env[x], v, keep);
    }
  }

  lemma {:induction false} AssignSim(w: World, whole: Expr, x: string, e: Expr, s: Sub, m: Mem, env: Env, env': Env,
    keep: set<nat>)
    requires e < whole
    requires Related(m) && Apart(m, keep) && EnvRel(s, m, env, env', {x} + Names(e))
    requires WritesRenamed(s, {x} + Writes(e))
    ensures var (o, st1) := Eval(w, Assign(x, e), env, m.st);
      var (o', st1') := Eval(w, Assign(Renamed(x, s), SubE(e, s)), env', m.st');
      o == o' && Evolves(m, Mem(m.b, st1, st1'), keep, {})
    decreases whole, 0
  {
    hide Evolves, Related, Apart, Store, NameRel;
    EvalSim(w, e, s, m, env, env', keep);
    var (o, st1) := Eval(w, e, env, m.st);
    var (o', st1') := Eval(w, SubE(e, s), env', m.st');
    var m1 := Mem(m.b, st1, st1');
    if o.Norm? {
      EnvRelEvolves(s, m, m1, env, env', {x}, keep, {});
      RelatedAfter(m, m1, keep);
      StoreSim(x, o.v, s, m1, env, env', keep);
      var m2 := Mem(m.b, Store(x, o.v, env, st1).1, Store(Renamed(x, s), o.v, env', st1').1);
      EvolvesTrans(m, m1, m2, keep, {}, keep, {}, keep, {});
    }
  }

  /** The same effect, performed by both. */
  lemma {:induction false} AddEvent(m: Mem, m1: Mem, e: Event, keep: set<nat>)
    requires Evolves(m, m1, keep, {})
    ensures m1.st.hist == m1.st'.hist
    ensures Evolves(m, Mem(m1.b, m1.st.(hist := m1.st.hist + [e]), m1.st'.(hist := m1.st'.hist + [e])), keep, {})
  {
  }

  /** Related states evaluate an expression and its substituted form alike. */
  lemma {:induction false} EvalSim(w: World, e: Expr, s: Sub, m: Mem, env: Env, env': Env, keep: set<nat>)
    requires Related(m) && Apart(m, keep) && EnvRel(s, m, env, env', Names(e)) && WritesRenamed(s, Writes(e))
    ensures var (o, st1) := Eval(w, e, env, m.st);
      var (o', st1') := Eval(w, SubE(e, s), env', m.st');
      o == o' && Evolves(m, Mem(m.b, st1, st1'), keep, {})
    decreases e, 1
  {
    hide Evolves;
    EvolvesRefl(m, keep, {});
    match e
    case Lit(_, _) =>
    case Var(_, x) => assert NameRel(s, m, env, env', x);
    case Paren(e1) => EvalSim(w, e1, s, m, env, env', keep);
    case Not(e1) => EvalSim(w, e1, s, m, env, env', keep);
    case Op(_, f, l, r) =>
      PairSim(w, e, l, r, s, m, env, env', keep);
      var (a, st1) := Eval(w, l, env, m.st);
      var (b, st2) := Eval(w, r, env, st1);
      if a.Norm? && b.Norm? {
        var st2' := Eval(w, SubE(r, s), env', Eval(w, SubE(l, s), env', m.st').1).1;
        AddEvent(m, Mem(m.b, st2, st2'), Event(f, a.v, b.v), keep);
      }
    case Compare(_, l, r) => PairSim(w, e, l, r, s, m, env, env', keep);
    case And(l, r) => PairSim(w, e, l, r, s, m, env, env', keep);
    case Or(l, r) => PairSim(w, e, l, r, s, m, env, env', keep);
    case Assign(x, e1) => AssignSim(w, e, x, e1, s, m, env, env', keep);
  }

  lemma {:induction false} PairSim(w: World, whole: Expr, l: Expr, r: Expr, s: Sub, m: Mem, env: Env, env': Env,
    keep: set<nat>)
    requires l < whole && r < whole
    requires Related(m) && Apart(m, keep) && EnvRel(s, m, env, env', Names(l) + Names(r))
    requires WritesRenamed(s, Writes(l) + Writes(r))
    ensures var (a, st1) := Eval(w, l, env, m.st);
      var (a', st1') := Eval(w, SubE(l, s), env', m.st');
      && a == a' && Evolves(m, Mem(m.b, st1, st1'), keep, {})
      && var (b, st2) := Eval(w, r, env, st1);
         var (b', st2') := Eval(w, SubE(r, s), env', st1');
         b == b' && Evolves(m, Mem(m.b, st2, st2'), keep, {})
    decreases whole, 0
  {
    hide Evolves, Related, Apart, NameRel;
    EvalSim(w, l, s, m, env, env', keep);
    var m1 := Mem(m.b, Eval(w, l, env, m.st).1, Eval(w, SubE(l, s), env', m.st').1);
    RelatedAfter(m, m1, keep);
    EnvRelEvolves(s, m, m1, env, env', Names(r), keep, {});
    EvalSim(w, r, s, m1, env, env', keep);
    var m2 := Mem(m.b, Eval(w, r, env, m1.st).1, Eval(w, SubE(r, s), env', m1.st').1);
    EvolvesTrans(m, m1, m2, keep, {}, keep, {}, keep, {});
  }

  /** Argument lists, evaluated from left to right. */
  lemma {:induction false} ArgsSim(w: World, es: seq<Expr>, s: Sub, m: Mem, env: Env, env': Env, keep: set<nat>)
    requires Related(m) && Apart(m, keep) && EnvRel(s, m, env, env', ArgNames(es)) && WritesRenamed(s, ArgWrites(es))
    ensures var (o, st1) := EvalArgs(w, es, env, m.st);
      var (o', st1') := EvalArgs(w, SubArgs(es, s), env', m.st');
      o == o' && Evolves(m, Mem(m.b, st1, st1'), keep, {})
  {
    if es != [] {
      EvalSim(w, es[0], s, m, env, env', keep);
      var (o, st1) := Eval(w, es[0], env, m.st);
      var m1 := Mem(m.b, st1, Eval(w, SubE(es[0], s), env', m.st').1);
      assert SubArgs(es, s)[0] == SubE(es[0], s) && SubArgs(es, s)[1..] == SubArgs(es[1..], s);
      if o.Norm? {
        RelatedAfter(m, m1, keep);
        EnvRelEvolves(s, m, m1, env, env', ArgNames(es[1..]), keep, {});
        ArgsSim(w, es[1..], s, m1, env, env', keep);
        var m2 := Mem(m.b, EvalArgs(w, es[1..], env, st1).1, EvalArgs(w, SubArgs(es[1..], s), env', m1.st').1);
        EvolvesTrans(m, m1, m2, keep, {}, keep, {}, keep, {});
      }
    }
  }

  // ----- environments built by blocks and calls -----

  lemma {:induction false} BindAt(xs: seq<string>, base: nat, env: Env)
    requires NoDup(xs)
    ensures forall i :: 0 <= i < |xs| ==> xs[i] in Bind(xs, base, env) && Bind(xs, base, env)[xs[i]] == base + i
    ensures forall x :: x !in xs ==>
          (x in Bind(xs, base, env) <==> x in env) && (x in env ==> Bind(xs, base, env)[x] == env[x])
    decreases |xs|
  {
    if xs != [] {
      var env1 := env[xs[0] := base];
      BindAt(xs[1..], base + 1, env1);
      forall i | 0 <= i < |xs| ensures xs[i] in Bind(xs, base, env) && Bind(xs, base, env)[xs[i]] == base + i {
        if i > 0 {
          assert xs[1..][i - 1] == xs[i];
        } else {
          assert xs[0] !in xs[1..];
        }
      }
    }
  }
}
