/**
 Collecting the elidable spans of a syntax tree into the arena.
 */
module ElidableArena {
  import opened Basics
  import opened LineSpans
  import opened SpanForest
  import opened SpanOrder
  import opened ElidableTree

  // ----- the trees that an arena stands for -----

  predicate Downward(nodes: seq<SpanNode>) {
    forall i :: 0 <= i < |nodes| ==> Refs(nodes, nodes[i].children) && forall c :: c in nodes[i].children ==> i < c
  }

  function TreeAt(nodes: seq<SpanNode>, i: nat): Elision
    requires Downward(nodes) && i < |nodes|
    decreases |nodes| - i, 0, 0
  {
    Elision(nodes[i].span, TreesAt(nodes, nodes[i].children, i + 1))
  }

  function TreesAt(nodes: seq<SpanNode>, ids: seq<nat>, low: nat): seq<Elision>
    requires Downward(nodes) && Refs(nodes, ids) && low <= |nodes| && forall i :: i in ids ==> low <= i
    decreases |nodes| - low, 1, |ids|
  {
    if ids == [] then []
    else
      var front := ids[..|ids| - 1];
      PrefixRefs(nodes, ids, front, low);
      TreesAt(nodes, front, low) + [TreeAt(nodes, ids[|ids| - 1])]
  }

  lemma {:induction false} PrefixRefs(nodes: seq<SpanNode>, ids: seq<nat>, front: seq<nat>, low: nat)
    requires Refs(nodes, ids) && ids != [] && front == ids[..|ids| - 1] && forall i :: i in ids ==> low <= i
    ensures Refs(nodes, front) && (forall i :: i in front ==> low <= i) && ids[|ids| - 1] in ids
  {
    assert forall i :: i in front ==> i in ids;
  }

  lemma {:induction false} LinkedDownward(nodes: seq<SpanNode>, roots: seq<nat>)
    requires Linked(nodes, roots)
    ensures Downward(nodes)
  {
  }

  /** Trees from `low` on depend only on the nodes from `low` on. */
  lemma {:induction false} SameTree(a: seq<SpanNode>, b: seq<SpanNode>, i: nat)
    requires Downward(a) && Downward(b) && i < |a| <= |b| && forall j :: i <= j < |a| ==> a[j] == b[j]
    ensures TreeAt(a, i) == TreeAt(b, i)
    decreases |a| - i, 0, 0
  {
    SameTrees(a, b, a[i].children, i + 1);
  }

  lemma {:induction false} SameTrees(a: seq<SpanNode>, b: seq<SpanNode>, ids: seq<nat>, low: nat)
    requires Downward(a) && Downward(b) && low <= |a| <= |b| && (forall j :: low <= j < |a| ==> a[j] == b[j])
    requires Refs(a, ids) && Refs(b, ids) && forall i :: i in ids ==> low <= i
    ensures TreesAt(a, ids, low) == TreesAt(b, ids, low)
    decreases |a| - low, 1, |ids|
  {
    if ids != [] {
      var n := |ids| - 1;
      assert ids[n] in ids && forall i :: i in ids[..n] ==> i in ids;
      SameTrees(a, b, ids[..n], low);
      SameTree(a, b, ids[n]);
    }
  }

  lemma {:induction false} LowerBound(nodes: seq<SpanNode>, ids: seq<nat>, low: nat, lower: nat)
    requires Downward(nodes) && Refs(nodes, ids) && lower <= low <= |nodes| && forall i :: i in ids ==> low <= i
    ensures TreesAt(nodes, ids, low) == TreesAt(nodes, ids, lower)
    decreases |ids|
  {
    if ids != [] {
      var n := |ids| - 1;
      assert ids[n] in ids && forall i :: i in ids[..n] ==> i in ids;
      LowerBound(nodes, ids[..n], low, lower);
    }
  }

  lemma {:induction false} JoinTrees(nodes: seq<SpanNode>, a: seq<nat>, b: seq<nat>, low: nat)
    requires Downward(nodes) && Refs(nodes, a) && Refs(nodes, b) && low <= |nodes|
    requires (forall i :: i in a ==> low <= i) && (forall i :: i in b ==> low <= i)
    ensures Refs(nodes, a + b) && TreesAt(nodes, a + b, low) == TreesAt(nodes, a, low) + TreesAt(nodes, b, low)
    decreases |b|
  {
    if b == [] {
      assert a + b == a;
    } else {
      var n := |b| - 1;
      assert b[n] in b && forall i :: i in b[..n] ==> i in b;
      assert (a + b)[..|a| + n] == a + b[..n] && (a + b)[|a + b| - 1] == b[n];
      JoinTrees(nodes, a, b[..n], low);
    }
  }

  lemma {:induction false} TreeMember(nodes: seq<SpanNode>, ids: seq<nat>, low: nat, k: nat)
    requires Downward(nodes) && Refs(nodes, ids) && low <= |nodes| && (forall i :: i in ids ==> low <= i) && k < |ids|
    ensures |TreesAt(nodes, ids, low)| == |ids| && ids[k] in ids && TreesAt(nodes, ids, low)[k] == TreeAt(nodes, ids[k])
    decreases |ids|
  {
    var n := |ids| - 1;
    assert forall i :: i in ids[..n] ==> i in ids;
    if k < n {
      TreeMember(nodes, ids[..n], low, k);
    } else if n > 0 {
      TreeMember(nodes, ids[..n], low, 0);
    }
  }

  // ----- growing the arena -----

  /** From one arena to the next, `tops` were pushed below `parent`; nothing else of the old nodes changed. */
  predicate Grown(a: seq<SpanNode>, aRoots: seq<nat>, b: seq<SpanNode>, bRoots: seq<nat>, parent: Option<nat>,
    tops: seq<nat>) {
    && Linked(a, aRoots) && Linked(b, bRoots) && |a| <= |b|
    && (forall i :: 0 <= i < |a| && parent != Some(i) ==> b[i] == a[i])
    && (parent.Some? ==> parent.value < |a| && bRoots == aRoots)
    && (parent.Some? ==> b[parent.value] == SpanNode(a[parent.value].span, a[parent.value].children + tops))
    && (parent.None? ==> bRoots == aRoots + tops)
    && (forall t :: t in tops ==> |a| <= t < |b|)
  }

  lemma {:induction false} GrownJoin(a: seq<SpanNode>, aRoots: seq<nat>, b: seq<SpanNode>, bRoots: seq<nat>,
    c: seq<SpanNode>, cRoots: seq<nat>, parent: Option<nat>, s: seq<nat>, t: seq<nat>)
    requires Grown(a, aRoots, b, bRoots, parent, s) && Grown(b, bRoots, c, cRoots, parent, t)
    ensures Grown(a, aRoots, c, cRoots, parent, s + t)
  {
    hide Linked;
    if parent.Some? {
      var x := a[parent.value].children;
      assert x + s + t == x + (s + t);
    } else {
      assert aRoots + s + t == aRoots + (s + t);
    }
  }

  lemma {:induction false} GrownNone(a: seq<SpanNode>, aRoots: seq<nat>, parent: Option<nat>)
    requires Linked(a, aRoots) && (parent.Some? ==> parent.value < |a|)
    ensures Grown(a, aRoots, a, aRoots, parent, [])
  {
    hide Linked;
    if parent.Some? {
      assert a[parent.value].children + [] == a[parent.value].children;
    } else {
      assert aRoots + [] == aRoots;
    }
  }

  /** What grew below a node just pushed belongs to that node. */
  lemma {:induction false} GrownBelow(a: seq<SpanNode>, aRoots: seq<nat>, b: seq<SpanNode>, bRoots: seq<nat>,
    c: seq<SpanNode>, cRoots: seq<nat>, parent: Option<nat>, idx: nat, inner: seq<nat>)
    requires Grown(a, aRoots, b, bRoots, parent, [idx]) && Grown(b, bRoots, c, cRoots, Some(idx), inner)
    requires idx == |a| && |b| == |a| + 1 && b[idx].children == []
    ensures Grown(a, aRoots, c, cRoots, parent, [idx])
    ensures c[idx] == SpanNode(b[idx].span, inner)
  {
    hide Linked;
    assert [] + inner == inner;
  }

  lemma {:induction false} PushGrows(a: seq<SpanNode>, aRoots: seq<nat>, b: seq<SpanNode>, bRoots: seq<nat>,
    parent: Option<nat>, span: Span)
    requires Linked(a, aRoots) && (parent.Some? ==> parent.value < |a|)
    requires |b| == |a| + 1 && b[|a|] == SpanNode(span, [])
    requires forall i :: 0 <= i < |a| && parent != Some(i) ==> b[i] == a[i]
    requires parent.Some? ==> b[parent.value] == SpanNode(a[parent.value].span, a[parent.value].children + [|a|])
    requires bRoots == if parent.None? then aRoots + [|a|] else aRoots
    ensures Grown(a, aRoots, b, bRoots, parent, [|a|])
    ensures Downward(b) && TreeAt(b, |a|) == Elision(span, [])
  {
    hide Distinct;
    OneDistinct(|a|);
    NoneDistinct();
    assert |a| !in aRoots;
    JoinDistinct(aRoots, [|a|]);
    if parent.Some? {
      var p := parent.value;
      assert Refs(a, a[p].children);
      assert |a| !in a[p].children;
      JoinDistinct(a[p].children, [|a|]);
    }
    forall i | 0 <= i < |b| ensures Refs(b, b[i].children) && Distinct(b[i].children) {
      if i < |a| { assert Refs(a, a[i].children); }
    }
    assert Linked(b, bRoots);
  }

  lemma {:induction false} OneDistinct(i: nat)
    ensures Distinct([i])
  {
  }

  lemma {:induction false} NoneDistinct()
    ensures Distinct([])
  {
  }

  /** The trees below `tops` are what was asked for, and every new node is the root of a good tree if they are. */
  ghost predicate Holds(nodes: seq<SpanNode>, base: nat, tops: seq<nat>, es: seq<Elision>) {
    && Downward(nodes) && Refs(nodes, tops) && base <= |nodes| && (forall t :: t in tops ==> base <= t)
    && TreesAt(nodes, tops, base) == es
    && (forall apart, i {:trigger Good(TreeAt(nodes, i), apart)} ::
          AllGood(es, apart) && base <= i < |nodes| ==> Good(TreeAt(nodes, i), apart))
  }

  /** One arena follows from another by pushing what the elisions `es` ask for. */
  ghost predicate Step(a: seq<SpanNode>, aRoots: seq<nat>, b: seq<SpanNode>, bRoots: seq<nat>, parent: Option<nat>,
    tops: seq<nat>, es: seq<Elision>)
  {
    Grown(a, aRoots, b, bRoots, parent, tops) && Holds(b, |a|, tops, es)
  }

  lemma {:induction false} StepNone(a: seq<SpanNode>, aRoots: seq<nat>, parent: Option<nat>)
    requires Linked(a, aRoots) && (parent.Some? ==> parent.value < |a|)
    ensures Step(a, aRoots, a, aRoots, parent, [], [])
  {
    GrownNone(a, aRoots, parent);
    LinkedDownward(a, aRoots);
  }

  lemma {:induction false} StepPush(a: seq<SpanNode>, aRoots: seq<nat>, b: seq<SpanNode>, bRoots: seq<nat>,
    parent: Option<nat>, span: Span)
    requires Linked(a, aRoots) && (parent.Some? ==> parent.value < |a|)
    requires |b| == |a| + 1 && b[|a|] == SpanNode(span, [])
    requires forall i :: 0 <= i < |a| && parent != Some(i) ==> b[i] == a[i]
    requires parent.Some? ==> b[parent.value] == SpanNode(a[parent.value].span, a[parent.value].children + [|a|])
    requires bRoots == if parent.None? then aRoots + [|a|] else aRoots
    ensures Step(a, aRoots, b, bRoots, parent, [|a|], [Elision(span, [])])
  {
    hide Linked;
    PushGrows(a, aRoots, b, bRoots, parent, span);
    var e := Elision(span, []);
    assert e in [e];
    OneTree(b, |a|);
  }

  lemma {:induction false} OneTree(nodes: seq<SpanNode>, i: nat)
    requires Downward(nodes) && i < |nodes|
    ensures Refs(nodes, [i]) && TreesAt(nodes, [i], i) == [TreeAt(nodes, i)]
  {
    assert [i][..0] == [] && TreesAt(nodes, [], i) == [];
  }

  lemma {:induction false} StepJoin(a: seq<SpanNode>, aRoots: seq<nat>, b: seq<SpanNode>, bRoots: seq<nat>,
    c: seq<SpanNode>, cRoots: seq<nat>, parent: Option<nat>, s: seq<nat>, t: seq<nat>, es: seq<Elision>,
    fs: seq<Elision>)
    requires Step(a, aRoots, b, bRoots, parent, s, es) && Step(b, bRoots, c, cRoots, parent, t, fs)
    ensures Step(a, aRoots, c, cRoots, parent, s + t, es + fs)
  {
    hide Linked, Good, Downward, TreesAt, TreeAt;
    GrownJoin(a, aRoots, b, bRoots, c, cRoots, parent, s, t);
    assert Refs(c, s);
    SameTrees(b, c, s, |a|);
    LowerBound(c, t, |b|, |a|);
    JoinTrees(c, s, t, |a|);
    forall apart, i | AllGood(es + fs, apart) && |a| <= i < |c| ensures Good(TreeAt(c, i), apart) {
      assert AllGood(es, apart) by { PartGood(es, fs, apart); }
      assert AllGood(fs, apart) by { PartGood(es, fs, apart); }
      if i < |b| { SameTree(b, c, i); }
    }
  }

  lemma {:induction false} PartGood(es: seq<Elision>, fs: seq<Elision>, apart: bool)
    requires AllGood(es + fs, apart)
    ensures AllGood(es, apart) && AllGood(fs, apart)
  {
    hide Good;
    assert forall e :: e in es || e in fs ==> e in es + fs;
  }

  lemma {:induction false} StepBelow(a: seq<SpanNode>, aRoots: seq<nat>, b: seq<SpanNode>, bRoots: seq<nat>,
    c: seq<SpanNode>, cRoots: seq<nat>, parent: Option<nat>, span: Span, inner: seq<nat>, es: seq<Elision>)
    requires Step(a, aRoots, b, bRoots, parent, [|a|], [Elision(span, [])]) && |b| == |a| + 1
    requires b[|a|] == SpanNode(span, []) && Step(b, bRoots, c, cRoots, Some(|a|), inner, es)
    ensures Step(a, aRoots, c, cRoots, parent, [|a|], [Elision(span, es)])
  {
    hide Linked, Downward, TreesAt;
    var idx := |a|;
    GrownBelow(a, aRoots, b, bRoots, c, cRoots, parent, idx, inner);
    OneTree(c, idx);
    var e := Elision(span, es);
    assert TreeAt(c, idx) == e;
    forall apart, i | AllGood([e], apart) && idx <= i < |c| ensures Good(TreeAt(c, i), apart) {
      assert e in [e] && Good(e, apart);
    }
  }

  /** Elide a run once it has ended. */
  method FlushGroupableRun(first: Option<Node>, last: Option<Node>, count: nat, m: Limits, forest: ElidableForest,
    parent: Option<nat>, ghost cs: seq<Node>, ghost a: nat, ghost b: nat) returns (ghost tops: seq<nat>)
    requires Linked(forest.nodes, forest.roots) && (parent.Some? ==> parent.value < |forest.nodes|)
    requires a <= b <= |cs| && count == b - a && (a < b ==> first == Some(cs[a]) && last == Some(cs[b - 1]))
    modifies forest
    ensures Step(old(forest.nodes), old(forest.roots), forest.nodes, forest.roots, parent, tops,
        One(RunSpan(cs, a, b, m)))
  {
    hide Step, Linked;
    tops := [];
    StepNone(forest.nodes, forest.roots, parent);
    if count < 2 { return; }
    if first.None? || last.None? { return; }
    var firstStart, lastStart, lastEnd := first.value.start, last.value.start, last.value.end;
    var spanLines := Minus(lastEnd, firstStart) + 1;
    if spanLines < m.body { return; }
    var firstContentEnd := Min(first.value.contentEnd, Minus(lastStart, 1));
    var start := firstContentEnd + 1;
    var end := Minus(lastStart, 1);
    if start <= end {
      ghost var nodes, roots := forest.nodes, forest.roots;
      var idx := forest.Push(parent, Span(start, end));
      StepPush(nodes, roots, forest.nodes, forest.roots, parent, Span(start, end));
      tops := [idx];
    }
  }

  /** The first loop over the children: elide runs of groupable siblings. */
  method CollectRuns(cs: seq<Node>, m: Limits, forest: ElidableForest, parent: Option<nat>)
    returns (ghost tops: seq<nat>)
    requires Linked(forest.nodes, forest.roots) && (parent.Some? ==> parent.value < |forest.nodes|)
    modifies forest
    ensures Step(old(forest.nodes), old(forest.roots), forest.nodes, forest.roots, parent, tops, Runs(cs, 0, 0, m))
  {
    hide Step, Linked, RunSpan;
    ghost var nodes, roots, a, done := forest.nodes, forest.roots, 0, [];
    var runFirst: Option<Node>, runLast: Option<Node>, runCount := None, None, 0;
    tops := [];
    StepNone(forest.nodes, forest.roots, parent);
    for i := 0 to |cs|
      invariant 0 <= a <= i && runCount == i - a && (a < i ==> runFirst == Some(cs[a]) && runLast == Some(cs[i - 1]))
      invariant (a == i ==> runFirst.None?)
      invariant Step(nodes, roots, forest.nodes, forest.roots, parent, tops, done)
      invariant Runs(cs, 0, 0, m) == done + Runs(cs, a, i, m)
    {
      var child := cs[i];
      if child.groupable {
        if runFirst.None? { runFirst := Some(child); }
        runLast := Some(child);
        runCount := runCount + 1;
      } else {
        StepLinked(nodes, roots, forest.nodes, forest.roots, parent, tops, done);
        ghost var mid, midRoots := forest.nodes, forest.roots;
        ghost var more := FlushGroupableRun(runFirst, runLast, runCount, m, forest, parent, cs, a, i);
        StepJoin(nodes, roots, mid, midRoots, forest.nodes, forest.roots, parent, tops, more, done,
          One(RunSpan(cs, a, i, m)));
        tops, done, a := tops + more, done + One(RunSpan(cs, a, i, m)), i + 1;
        runFirst, runLast, runCount := None, None, 0;
      }
    }
    StepLinked(nodes, roots, forest.nodes, forest.roots, parent, tops, done);
    ghost var mid, midRoots := forest.nodes, forest.roots;
    ghost var more := FlushGroupableRun(runFirst, runLast, runCount, m, forest, parent, cs, a, |cs|);
    StepJoin(nodes, roots, mid, midRoots, forest.nodes, forest.roots, parent, tops, more, done,
      One(RunSpan(cs, a, |cs|, m)));
    tops := tops + more;
  }

  lemma {:induction false} StepLinked(a: seq<SpanNode>, aRoots: seq<nat>, b: seq<SpanNode>, bRoots: seq<nat>,
    parent: Option<nat>, tops: seq<nat>, es: seq<Elision>)
    requires Step(a, aRoots, b, bRoots, parent, tops, es)
    ensures Linked(b, bRoots) && |a| <= |b| && (parent.Some? ==> parent.value < |b|)
  {
  }

  /** Push the spans of a node and of all below it. */
  method CollectElidableTree(n: Node, elidableParent: Option<nat>, m: Limits, forest: ElidableForest)
    returns (ghost tops: seq<nat>)
    requires Linked(forest.nodes, forest.roots) && (elidableParent.Some? ==> elidableParent.value < |forest.nodes|)
    modifies forest
    ensures Step(old(forest.nodes), old(forest.roots), forest.nodes, forest.roots, elidableParent, tops, Elisions(n, m))
    decreases n
  {
    hide Step, Linked, Runs, Below, Inner;
    ghost var nodes, roots := forest.nodes, forest.roots;
    tops := [];
    StepNone(forest.nodes, forest.roots, elidableParent);
    if n.comment {
      if CommentSpan(n, m).Some? {
        var span := CommentSpan(n, m).value;
        var idx := forest.Push(elidableParent, span);
        StepPush(nodes, roots, forest.nodes, forest.roots, elidableParent, span);
        tops := [idx];
      }
      return;
    }
    var currentParent := elidableParent;
    if BodySpan(n, m).Some? {
      var span := BodySpan(n, m).value;
      var idx := forest.Push(elidableParent, span);
      StepPush(nodes, roots, forest.nodes, forest.roots, elidableParent, span);
      currentParent := Some(idx);
      StepLinked(nodes, roots, forest.nodes, forest.roots, elidableParent, [idx], [Elision(span, [])]);
    }
    ghost var mid, midRoots := forest.nodes, forest.roots;
    ghost var inner := CollectRuns(n.children, m, forest, currentParent);
    ghost var es := Runs(n.children, 0, 0, m);
    BelowNone(m);
    assert n.children[..0] == [] && es + [] == es;
    for index := 0 to |n.children|
      invariant Step(mid, midRoots, forest.nodes, forest.roots, currentParent, inner,
          es + Below(n.children[..index], m))
    {
      StepLinked(mid, midRoots, forest.nodes, forest.roots, currentParent, inner, es + Below(n.children[..index], m));
      ghost var now, nowRoots, soFar := forest.nodes, forest.roots, es + Below(n.children[..index], m);
      ghost var more := CollectElidableTree(n.children[index], currentParent, m, forest);
      StepJoin(mid, midRoots, now, nowRoots, forest.nodes, forest.roots, currentParent, inner, more,
        soFar, Elisions(n.children[index], m));
      BelowEnd(n.children, index, m);
      assert soFar + Elisions(n.children[index], m) == es + Below(n.children[..index + 1], m);
      inner := inner + more;
    }
    assert n.children[..|n.children|] == n.children;
    InnerIs(n, m);
    if BodySpan(n, m).Some? {
      StepBelow(nodes, roots, mid, midRoots, forest.nodes, forest.roots, elidableParent, BodySpan(n, m).value, inner,
        Inner(n, m));
      tops := [|nodes|];
    } else {
      tops := inner;
    }
  }

  lemma {:induction false} BelowNone(m: Limits)
    ensures Below([], m) == []
  {
  }

  lemma {:induction false} BelowEnd(cs: seq<Node>, i: nat, m: Limits)
    requires i < |cs|
    ensures Below(cs[..i + 1], m) == Below(cs[..i], m) + Elisions(cs[i], m)
  {
    assert cs[..i + 1][..i] == cs[..i];
  }

  lemma {:induction false} InnerIs(n: Node, m: Limits)
    ensures Inner(n, m) == Runs(n.children, 0, 0, m) + Below(n.children, m)
  {
  }

  // ----- the whole forest -----

  /**
   The forest of a well-placed tree whose elided runs are clear is sound: spans lie inside their parents
   and inside the file, and siblings stand apart.
   */
  lemma {:induction false} ForestIsSound(n: Node, m: Limits, total: nat, nodes: seq<SpanNode>, roots: seq<nat>)
    requires WellPlaced(n) && n.end <= total + 1 && Clear(n, m)
    requires Step([], [], nodes, roots, None, roots, Elisions(n, m))
    ensures Sound(nodes, roots, total)
  {
    hide WellPlaced, Clear, Elisions, Good, TreesAt;
    var es := Elisions(n, m);
    ElisionsNest(n, m);
    ApartExactly(n, m);
    forall i | 0 <= i < |nodes| ensures NodeFits(nodes, i) {
      assert Good(TreeAt(nodes, i), true);
      GoodNode(nodes, i);
    }
    AllFit(nodes, roots);
    forall k | 0 <= k < |roots|
      ensures roots[k] in roots && |es| == |roots| && nodes[roots[k]].span == es[k].span
    {
      TreeMember(nodes, roots, 0, k);
    }
    if roots != [] { TreeMember(nodes, roots, 0, 0); }
    RootsFit(nodes, roots, es, n, total);
  }

  predicate NodeFits(nodes: seq<SpanNode>, i: nat) {
    && i < |nodes| && Proper(nodes[i].span) && Refs(nodes, nodes[i].children)
    && (forall c :: c in nodes[i].children ==> Inside(nodes[c].span, nodes[i].span))
    && Apart(nodes, nodes[i].children)
  }

  lemma {:induction false} GoodNode(nodes: seq<SpanNode>, i: nat)
    requires Downward(nodes) && i < |nodes| && Good(TreeAt(nodes, i), true)
    ensures NodeFits(nodes, i)
  {
    hide Downward, TreesAt;
    var ids := nodes[i].children;
    DownwardAt(nodes, i);
    var inner := TreesAt(nodes, ids, i + 1);
    assert TreeAt(nodes, i).inner == inner;
    forall k | 0 <= k < |ids| ensures |inner| == |ids| && ids[k] in ids && nodes[ids[k]].span == inner[k].span {
      TreeMember(nodes, ids, i + 1, k);
    }
    forall c | c in ids ensures Inside(nodes[c].span, nodes[i].span) {
      var k :| 0 <= k < |ids| && ids[k] == c;
      assert inner[k] in inner;
    }
    forall a, b | 0 <= a < b < |ids| ensures Disjoint(nodes[ids[a]].span, nodes[ids[b]].span) {
      assert Disjoint(inner[a].span, inner[b].span);
    }
  }

  lemma {:induction false} DownwardAt(nodes: seq<SpanNode>, i: nat)
    requires Downward(nodes) && i < |nodes|
    ensures Refs(nodes, nodes[i].children) && forall c :: c in nodes[i].children ==> i + 1 <= c
  {
  }

  lemma {:induction false} AllFit(nodes: seq<SpanNode>, roots: seq<nat>)
    requires forall i :: 0 <= i < |nodes| ==> NodeFits(nodes, i)
    ensures Nested(nodes)
    ensures forall i :: 0 <= i < |nodes| ==> Refs(nodes, nodes[i].children) && Apart(nodes, nodes[i].children)
  {
    hide Apart;
    forall i | 0 <= i < |nodes|
      ensures Proper(nodes[i].span) && Refs(nodes, nodes[i].children) && Apart(nodes, nodes[i].children)
      ensures forall c :: c in nodes[i].children ==> Inside(nodes[c].span, nodes[i].span)
    {
      assert NodeFits(nodes, i);
    }
  }

  lemma {:induction false} RootsFit(nodes: seq<SpanNode>, roots: seq<nat>, es: seq<Elision>, n: Node, total: nat)
    requires Refs(nodes, roots) && (roots == [] || |es| == |roots|) && StandApart(es) && Between(es, n.start, n.end)
    requires n.end <= total + 1
    requires forall k :: 0 <= k < |roots| ==> roots[k] in roots && nodes[roots[k]].span == es[k].span
    ensures Apart(nodes, roots) && Within(nodes, roots, total)
  {
    forall a, b | 0 <= a < b < |roots| ensures Disjoint(nodes[roots[a]].span, nodes[roots[b]].span) {
      assert Disjoint(es[a].span, es[b].span);
    }
    forall r | r in roots ensures 1 <= nodes[r].span.start && nodes[r].span.end <= total {
      var k :| 0 <= k < |roots| && roots[k] == r;
      assert es[k] in es;
    }
  }
}
