/**
 What the simulation gives: inlining a helper changes nothing that can be seen
 from outside the module, and neither does the whole run of `inlineFile`.
 */
module InlinerTheorems {
  import opened Basics
  import opened Expressions
  import opened GuardText
  import opened GuardInversion
  import opened Programs
  import opened Inliner
  import opened InlinerMemory
  import opened InlinerNames
  import opened InlinerOrder
  import opened InlinerSim
  import opened InlinerSite
  import opened InlinerProof

  /** The globals, each matched with itself. */
  function Identity(n: nat): Inj { map l | l in CellRange(0, n) :: l }

  lemma {:induction false} GlobalsBound(p: Program, y: string)
    requires NoDup(p.globals)
    ensures y in GlobalEnv(p) ==> GlobalEnv(p)[y] < |p.globals|
  {
    BindAt(p.globals, 0, map[]);
  }

  lemma {:induction false} StartRelated(j: Job, x: Ctx, st: State)
    requires Good(j) && |st.heap| == |j.p.globals| && x.keep == {}
    ensures MemOk(j, x, Mem(Identity(|st.heap|), st, st))
  {
    hide Good;
    Facts(j);
    GoodGlobals(j);
    forall y | y in GlobalEnv(j.p) ensures GlobalEnv(j.p)[y] < |st.heap| {
      GlobalsBound(j.p, y);
    }
  }

  lemma {:induction false} GoodGlobals(j: Job)
    requires Good(j)
    ensures NoDup(j.p.globals)
  {
  }

  /** One direction: whatever one of the two modules yields, so does the other. */
  lemma {:induction false} YieldsOneWay(j: Job, h: Fun, vs: seq<Value>, st: State, fuel: nat, fwd: bool)
    returns (r: Result, r': Result)
    requires Good(j) && |st.heap| == |j.p.globals| && h in j.p.funs
    requires InvokeOrdered(j.Before(), j.c, h, vs, st, if fwd then fuel else 2 * fuel + 2)
    ensures var h' := h.(body := RewriteBlock(Some(j.c), h.body, map[]));
      && r == AfterCall(Invoke(j.Before(), h, vs, st, if fwd then fuel else 2 * fuel + 2))
      && r' == AfterCall(Invoke(j.After(), h', vs, st, fuel))
    ensures Dead(fwd, r, r') || (r.0 == r'.0 && r.1.hist == r'.1.hist
      && |r.1.heap| >= |st.heap| && |r'.1.heap| >= |st.heap| && r.1.heap[..|st.heap|] == r'.1.heap[..|st.heap|])
  {
    hide Good, InvokeOrdered;
    var x := Ctx(Some(j.c), map[], {}, fwd, if fwd then fuel + 1 else 2 * fuel + 3, fuel + 1, map[], map[], {});
    var m := Mem(Identity(|st.heap|), st, st);
    StartRelated(j, x, st);
    EvolvesRefl(m, {}, {});
    var b2 := SimInvoke(j, x, m, m, h, vs);
    var h' := h.(body := RewriteBlock(Some(j.c), h.body, map[]));
    var q, q' := Invoke(j.Before(), h, vs, st, x.n - 1), Invoke(j.After(), h', vs, st, x.k - 1);
    r, r' := AfterCall(q), AfterCall(q');
    if !Dead(fwd, q, q') {
      SameGlobals(m, Mem(b2, q.1, q'.1), |st.heap|);
    }
  }

  lemma {:induction false} SameGlobals(m: Mem, m1: Mem, n: nat)
    requires Evolves(m, m1, {}, {}) && m.b == Identity(n) && |m.st.heap| == n && |m.st'.heap| == n
    ensures m1.st.hist == m1.st'.hist && n <= |m1.st.heap| && n <= |m1.st'.heap|
    ensures m1.st.heap[..n] == m1.st'.heap[..n]
  {
    forall l | 0 <= l < n ensures m1.st.heap[l] == m1.st'.heap[l] {
      assert l in m.b && m.b[l] == l;
      assert m1.b[l] == l;
    }
  }

  /** Inlining a helper keeps the meaning of the module: every exported function,
      called with any arguments in any store and after any history, ends the same
      way, with the same globals and the same effects in the same order, or does
      not end in either module, as long as no call of the helper on the way meets an
      unordered pair in a comparison that is flipped. */
  lemma {:induction false} InliningPreservesMeaning(j: Job, entry: string, vs: seq<Value>, st: State, v: Visible)
    requires Good(j) && RunOrdered(j.p, j.w, j.c, entry, vs, st)
    requires FindFun(j.p.funs, entry).Some? && FindFun(j.p.funs, entry).value.exported
    ensures Yields(j.p, j.w, entry, vs, st, v) <==> Yields(InlineInto(j.p, j.c), j.w, entry, vs, st, v)
  {
    hide Good, InvokeOrdered;
    Facts(j);
    var p' := InlineInto(j.p, j.c);
    var h := FindFun(j.p.funs, entry).value;
    FindIn(j.p.funs, entry);
    GoodNames(j, h);
    FindRewritten(j.c, j.p.funs, entry);
    if Yields(j.p, j.w, entry, vs, st, v) {
      var fuel: nat :| YieldsWithin(j.p, j.w, entry, vs, st, v, fuel);
      var r, r' := YieldsOneWay(j, h, vs, st, fuel, true);
      assert YieldsWithin(p', j.w, entry, vs, st, v, fuel);
    }
    if Yields(p', j.w, entry, vs, st, v) {
      var fuel: nat :| YieldsWithin(p', j.w, entry, vs, st, v, fuel);
      var r, r' := YieldsOneWay(j, h, vs, st, fuel, false);
      assert YieldsWithin(j.p, j.w, entry, vs, st, v, 2 * fuel + 2);
    }
  }

  lemma {:induction false} GoodNames(j: Job, h: Fun)
    requires Good(j) && h in j.p.funs && h.exported
    ensures h.name != j.c.f.name
  {
    Facts(j);
    var a :| 0 <= a < |j.p.funs| && j.p.funs[a] == h;
    var b :| 0 <= b < |j.p.funs| && j.p.funs[b] == j.c.f;
  }
}
