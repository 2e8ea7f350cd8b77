/**
 The arena of elidable spans, and unfolding it breadth first until enough lines are visible.
 */
module SpanForest {
  import opened Basics
  import opened LineSpans
  import opened SpanOrder

  // ----- a sound forest -----

  predicate Apart(nodes: seq<SpanNode>, ids: seq<nat>)
    requires Refs(nodes, ids)
  {
    forall a, b :: 0 <= a < b < |ids| ==>
      ids[a] in ids && ids[b] in ids && Disjoint(nodes[ids[a]].span, nodes[ids[b]].span)
  }

  predicate Nested(nodes: seq<SpanNode>) {
    && (forall i :: 0 <= i < |nodes| ==> nodes[i].span.start <= nodes[i].span.end && Refs(nodes, nodes[i].children))
    && (forall i, c :: 0 <= i < |nodes| && c in nodes[i].children ==> Inside(nodes[c].span, nodes[i].span))
  }

  predicate SiblingsApart(nodes: seq<SpanNode>, roots: seq<nat>) {
    && Refs(nodes, roots) && Apart(nodes, roots)
    && forall i :: 0 <= i < |nodes| ==> Refs(nodes, nodes[i].children) && Apart(nodes, nodes[i].children)
  }

  predicate Within(nodes: seq<SpanNode>, roots: seq<nat>, total: nat) {
    Refs(nodes, roots) && forall r :: r in roots ==> 1 <= nodes[r].span.start && nodes[r].span.end <= total
  }

  predicate Sound(nodes: seq<SpanNode>, roots: seq<nat>, total: nat) {
    Linked(nodes, roots) && Nested(nodes) && SiblingsApart(nodes, roots) && Within(nodes, roots, total)
  }

  // ----- counting lines -----

  function Covered(nodes: seq<SpanNode>, ids: set<nat>): set<nat>
    requires forall i :: i in ids ==> i < |nodes|
  {
    set i, l | i in ids && l in Cover(nodes[i].span) :: l
  }

  /** Spans that stand apart hold together as many lines as their lengths add up to. */
  lemma {:induction false} ApartSum(nodes: seq<SpanNode>, ids: seq<nat>)
    requires Refs(nodes, ids) && Apart(nodes, ids) && Nested(nodes)
    ensures |Covered(nodes, ToSet(ids))| == SumLines(nodes, ids)
  {
    hide Cover, LinesOf;
    if ids == [] {
      assert Covered(nodes, ToSet(ids)) == {};
    } else {
      var i, rest := ids[0], ids[1..];
      assert forall j :: j in rest ==> j in ids;
      assert forall a :: 0 <= a < |rest| ==> rest[a] == ids[a + 1];
      ApartSum(nodes, rest);
      assert i in ids;
      CoverSize(nodes[i].span);
      assert ToSet(ids) == {i} + ToSet(rest);
      var more := Covered(nodes, ToSet(rest));
      assert Covered(nodes, ToSet(ids)) == Cover(nodes[i].span) + more;
      forall j | j in rest ensures Cover(nodes[i].span) !! Cover(nodes[j].span) {
        var a :| 0 <= a < |rest| && rest[a] == j;
        assert Disjoint(nodes[ids[0]].span, nodes[ids[a + 1]].span);
        DisjointCovers(nodes[i].span, nodes[j].span);
      }
      assert Cover(nodes[i].span) !! more;
    }
  }

  // ----- one unfolding -----

  predicate AllApart(nodes: seq<SpanNode>, folded: set<nat>) {
    && (forall i :: i in folded ==> i < |nodes|)
    && forall i, j :: i in folded && j in folded && i != j ==> Disjoint(nodes[i].span, nodes[j].span)
  }

  function Replaced(nodes: seq<SpanNode>, folded: set<nat>, i: nat): set<nat>
    requires i < |nodes|
  {
    folded - {i} + ToSet(nodes[i].children)
  }

  lemma {:induction false} ChildOf(nodes: seq<SpanNode>, roots: seq<nat>, i: nat, c: nat)
    requires Linked(nodes, roots) && Nested(nodes) && i < |nodes| && c in nodes[i].children
    ensures i < c < |nodes| && Inside(nodes[c].span, nodes[i].span)
  {
  }

  lemma {:induction false} ReplacedApart(nodes: seq<SpanNode>, roots: seq<nat>, folded: set<nat>, i: nat)
    requires Linked(nodes, roots) && Nested(nodes) && SiblingsApart(nodes, roots) && AllApart(nodes, folded)
    requires i in folded
    ensures AllApart(nodes, Replaced(nodes, folded, i))
    ensures ToSet(nodes[i].children) !! folded
  {
    var children := nodes[i].children;
    forall a, b | a in ToSet(children) && b in ToSet(children) && a != b
      ensures Disjoint(nodes[a].span, nodes[b].span)
    {
      var x :| 0 <= x < |children| && children[x] == a;
      var y :| 0 <= y < |children| && children[y] == b;
      assert Apart(nodes, children);
      if x < y {
        assert Disjoint(nodes[children[x]].span, nodes[children[y]].span);
      } else {
        assert Disjoint(nodes[children[y]].span, nodes[children[x]].span);
      }
    }
    forall c | c in children ensures c !in folded {
      ChildOf(nodes, roots, i, c);
    }
    forall a, b | a in ToSet(children) && b in folded && b != i ensures Disjoint(nodes[a].span, nodes[b].span) {
      assert Inside(nodes[a].span, nodes[i].span) && Disjoint(nodes[i].span, nodes[b].span);
    }
  }

  /** Replacing a span by its children reveals the lines between them. */
  lemma {:induction false} ReplacedLines(nodes: seq<SpanNode>, roots: seq<nat>, folded: set<nat>, i: nat)
    requires Linked(nodes, roots) && Nested(nodes) && SiblingsApart(nodes, roots) && AllApart(nodes, folded)
    requires i in folded
    ensures AllApart(nodes, Replaced(nodes, folded, i))
    ensures LinesOf(nodes[i].span) >= SumLines(nodes, nodes[i].children)
    ensures Covered(nodes, Replaced(nodes, folded, i)) <= Covered(nodes, folded)
    ensures |Covered(nodes, Replaced(nodes, folded, i))|
         == |Covered(nodes, folded)| - LinesOf(nodes[i].span) + SumLines(nodes, nodes[i].children)
  {
    hide Cover, LinesOf, Linked, SiblingsApart, Covered, AllApart;
    NodeOf(nodes, folded, i);
    var children := nodes[i].children;
    ReplacedApart(nodes, roots, folded, i);
    ApartSum(nodes, children) by { SiblingsOf(nodes, roots, i); }
    CoverSize(nodes[i].span);
    SplitCover(nodes, folded, i);
    InnerCover(nodes, i);
    var others, own, inner := Covered(nodes, folded - {i}), Cover(nodes[i].span), Covered(nodes, ToSet(children));
    Subset(inner, own);
    assert |others + own| == |others| + |own|;
    assert |others + inner| == |others| + |inner|;
  }

  lemma {:induction false} NodeOf(nodes: seq<SpanNode>, folded: set<nat>, i: nat)
    requires Nested(nodes) && AllApart(nodes, folded) && i in folded
    ensures i < |nodes| && nodes[i].span.start <= nodes[i].span.end
  {
  }

  lemma {:induction false} SplitCover(nodes: seq<SpanNode>, folded: set<nat>, i: nat)
    requires Nested(nodes) && AllApart(nodes, folded) && i in folded && Refs(nodes, nodes[i].children)
    ensures Covered(nodes, folded) == Covered(nodes, folded - {i}) + Cover(nodes[i].span)
    ensures Covered(nodes, Replaced(nodes, folded, i))
      == Covered(nodes, folded - {i}) + Covered(nodes, ToSet(nodes[i].children))
    ensures Covered(nodes, folded - {i}) !! Cover(nodes[i].span)
  {
    hide Cover;
    forall l | l in Covered(nodes, folded - {i}) ensures l !in Cover(nodes[i].span) {
      var j :| j in folded && j != i && l in Cover(nodes[j].span);
      DisjointCovers(nodes[j].span, nodes[i].span);
    }
  }

  lemma {:induction false} InnerCover(nodes: seq<SpanNode>, i: nat)
    requires Nested(nodes) && i < |nodes|
    ensures Refs(nodes, nodes[i].children) && Covered(nodes, ToSet(nodes[i].children)) <= Cover(nodes[i].span)
  {
    hide Cover;
    forall l | l in Covered(nodes, ToSet(nodes[i].children)) ensures l in Cover(nodes[i].span) {
      var c :| c in ToSet(nodes[i].children) && l in Cover(nodes[c].span);
      InsideCovers(nodes[c].span, nodes[i].span);
    }
  }

  lemma {:induction false} SiblingsOf(nodes: seq<SpanNode>, roots: seq<nat>, i: nat)
    requires SiblingsApart(nodes, roots) && i < |nodes|
    ensures Refs(nodes, nodes[i].children) && Apart(nodes, nodes[i].children)
  {
  }

  // ----- the queue -----

  function UpTo(n: nat): (r: set<nat>)
    ensures |r| == n && forall i: nat :: i in r <==> i < n
  {
    if n == 0 then {} else UpTo(n - 1) + {n - 1}
  }

  lemma {:induction false} DistinctSize(ids: seq<nat>)
    requires Distinct(ids)
    ensures |ToSet(ids)| == |ids|
  {
    if ids != [] {
      var front, last := ids[..|ids| - 1], ids[|ids| - 1];
      DistinctSize(front);
      assert last !in front && ToSet(ids) == ToSet(front) + {last};
    }
  }

  /** No more different indices than nodes. */
  lemma {:induction false} FewEnough(nodes: seq<SpanNode>, ids: seq<nat>)
    requires Distinct(ids) && Refs(nodes, ids)
    ensures |ids| <= |nodes|
  {
    DistinctSize(ids);
    Subset(ToSet(ids), UpTo(|nodes|));
  }

  /** Everything queued is a root or lies directly below a node that was unfolded. */
  predicate Reached(nodes: seq<SpanNode>, roots: seq<nat>, queued: seq<nat>, unfolded: set<nat>) {
    && Distinct(queued) && Refs(nodes, queued) && unfolded <= ToSet(queued)
    && (forall q :: q in queued ==> q in roots || exists p :: p in unfolded && p < |nodes| && q in nodes[p].children)
  }

  lemma {:induction false} ReachedMore(nodes: seq<SpanNode>, roots: seq<nat>, queued: seq<nat>, unfolded: set<nat>,
    i: nat)
    requires Linked(nodes, roots) && Reached(nodes, roots, queued, unfolded) && i < |nodes| && i in queued
    requires i !in unfolded
    ensures Reached(nodes, roots, queued + nodes[i].children, unfolded + {i})
    ensures ToSet(nodes[i].children) !! ToSet(queued)
  {
    var children := nodes[i].children;
    forall c | c in children ensures c !in queued {
      OnlyParent(nodes, roots, unfolded, i, c);
    }
    JoinDistinct(queued, children);
    forall q | q in queued + children
      ensures q in roots || exists p :: p in unfolded + {i} && p < |nodes| && q in nodes[p].children
    {
      if q in queued && q !in roots {
        var p :| p in unfolded && p < |nodes| && q in nodes[p].children;
        assert p in unfolded + {i};
      } else if q !in roots {
        assert i in unfolded + {i} && q in nodes[i].children;
      }
    }
  }

  lemma {:induction false} OnlyParent(nodes: seq<SpanNode>, roots: seq<nat>, unfolded: set<nat>, i: nat, c: nat)
    requires Linked(nodes, roots) && i < |nodes| && i !in unfolded && c in nodes[i].children
    ensures c !in roots && !exists p :: p in unfolded && p < |nodes| && c in nodes[p].children
  {
    forall p | p in unfolded && p < |nodes| ensures c !in nodes[p].children {
      assert p < i || i < p;
    }
  }

  lemma {:induction false} JoinDistinct(a: seq<nat>, b: seq<nat>)
    requires Distinct(a) && Distinct(b) && forall x :: x in b ==> x !in a
    ensures Distinct(a + b)
  {
    forall i, j | 0 <= i < j < |a + b| ensures (a + b)[i] != (a + b)[j] {
      if i < |a| <= j { assert b[j - |a|] in b && a[i] in a; }
    }
  }

  // ----- the arena -----

  class ElidableForest {
    var nodes: seq<SpanNode>
    var roots: seq<nat>

    constructor ()
      ensures nodes == [] && roots == []
    {
      nodes, roots := [], [];
    }

    method Push(parent: Option<nat>, span: Span) returns (idx: nat)
      requires parent.Some? ==> parent.value < |nodes|
      modifies this
      ensures idx == |old(nodes)| && |nodes| == idx + 1 && nodes[idx] == SpanNode(span, [])
      ensures forall i :: 0 <= i < idx && parent != Some(i) ==> nodes[i] == old(nodes)[i]
      ensures parent.Some? ==> var was := old(nodes)[parent.value];
        nodes[parent.value] == SpanNode(was.span, was.children + [idx])
      ensures roots == if parent.None? then old(roots) + [idx] else old(roots)
    {
      idx := |nodes|;
      nodes := nodes + [SpanNode(span, [])];
      match parent
      case Some(p) => nodes := nodes[p := nodes[p].(children := nodes[p].children + [idx])];
      case None => roots := roots + [idx];
    }

    /**
     Unfold breadth first, which leaves one answer (`OneUnfolding`). The visible lines pass neither the limit nor,
     where that is more, their number at the start; short of the target, each span still folded would pass the
     limit. In a sound forest the folded spans stand apart and `visible` counts the lines outside them.
     */
    method UnfoldSpans(total: nat, until: nat, limit: nat)
      returns (folded: set<nat>, visible: nat, ghost u: Unfolding)
      requires Linked(nodes, roots)
      ensures Refs(nodes, roots) && visible <= Max(Minus(total, SumLines(nodes, roots)), limit)
      ensures BreadthFirst(nodes, roots, Minus(total, SumLines(nodes, roots)), until, limit, u, folded, visible)
      ensures Distinct(u.queued) && Refs(nodes, u.queued) && forall i :: i in folded ==> i < |nodes|
      ensures Sound(nodes, roots, total) ==> Exact(nodes, roots, total, folded, visible)
      ensures until == 0 ==> folded == ToSet(roots)
      ensures visible >= until || forall f :: f in folded ==> Stuck(nodes, f, visible, limit)
    {
      hide SumLines, Sound, Exact, LinesOf, Frontier, Distinct, Linked, Leaves;
      FrontierStart(nodes, roots, total, limit);
      folded := ToSet(roots);
      u := Unfolding(roots, 0, {});
      var foldedLines := SumLines(nodes, roots);
      visible := Minus(total, foldedLines);
      UnfoldStart(nodes, roots, visible, until, limit);
      if until == 0 || folded == {} {
        NoneFolded(roots);
        FrontierEnd(nodes, roots, total, limit, visible, folded, visible, roots, u.queued, 0, {});
        return;
      }
      var queue := roots;
      ghost var start := visible;
      while queue != []
        invariant Frontier(nodes, roots, total, limit, start, folded, visible, queue, u.queued, u.turns, u.unfolded)
        invariant Leaves(nodes, roots, start, until, limit, u, folded, visible)
        invariant u.turns <= |u.queued| && queue == u.queued[u.turns..]
        decreases |nodes| - u.turns
      {
        if visible >= until { break; }
        FrontierHead(nodes, roots, total, limit, start, folded, visible, queue, u.queued, u.turns, u.unfolded);
        var idx := queue[0];
        var node := nodes[idx];
        var childLines := SumLines(nodes, node.children);
        var lines := LinesOf(node.span);
        var revealed := Minus(lines, childLines);
        var newVisible := visible + revealed;
        if newVisible > limit {
          FrontierSkip(nodes, roots, total, limit, start, folded, visible, queue, u.queued, u.turns, u.unfolded);
          UnfoldSkip(nodes, roots, start, until, limit, u, folded, visible);
          queue, u := queue[1..], u.(turns := u.turns + 1);
          continue;
        }
        FrontierStep(nodes, roots, total, limit, start, folded, visible, queue, u.queued, u.turns, u.unfolded);
        UnfoldStep(nodes, roots, start, until, limit, u, folded, visible, idx);
        folded := folded - {idx} + ToSet(node.children);
        queue := queue[1..] + node.children;
        u := Unfolding(u.queued + node.children, u.turns + 1, u.unfolded + {idx});
        visible := newVisible;
      }
      FrontierEnd(nodes, roots, total, limit, start, folded, visible, queue, u.queued, u.turns, u.unfolded);
    }
  }

  /** The part of the state that only makes sense in a sound forest. */
  ghost predicate Exact(nodes: seq<SpanNode>, roots: seq<nat>, total: nat, folded: set<nat>, visible: int) {
    && AllApart(nodes, folded) && AllApart(nodes, ToSet(roots)) && visible == total - |Covered(nodes, folded)|
    && Covered(nodes, folded) <= Covered(nodes, ToSet(roots))
  }

  /** What holds between two rounds of unfolding. */
  ghost predicate Frontier(nodes: seq<SpanNode>, roots: seq<nat>, total: nat, limit: nat, start: nat,
    folded: set<nat>, visible: nat, queue: seq<nat>, queued: seq<nat>, popped: nat, unfolded: set<nat>)
  {
    && Linked(nodes, roots) && start <= visible <= Max(start, limit)
    && (Sound(nodes, roots, total) ==> Exact(nodes, roots, total, folded, visible))
    && Reached(nodes, roots, queued, unfolded) && folded !! unfolded
    && popped <= |queued| && queue == queued[popped..] && folded <= ToSet(queued)
    && (forall q :: q in queue ==> q in folded)
    && (forall f :: f in folded && f !in queue ==> Stuck(nodes, f, visible, limit))
  }

  predicate Stuck(nodes: seq<SpanNode>, f: nat, visible: nat, limit: nat) {
    f < |nodes| && Refs(nodes, nodes[f].children) && visible + Revealed(nodes, f) > limit
  }

  lemma {:induction false} NoneFolded(roots: seq<nat>)
    ensures ToSet(roots) == {} ==> roots == []
  {
    if roots != [] { assert roots[0] in ToSet(roots); }
  }

  lemma {:induction false} FrontierStart(nodes: seq<SpanNode>, roots: seq<nat>, total: nat, limit: nat)
    requires Linked(nodes, roots)
    ensures Refs(nodes, roots) && Distinct(roots)
    ensures var visible := Minus(total, SumLines(nodes, roots));
      Frontier(nodes, roots, total, limit, visible, ToSet(roots), visible, roots, roots, 0, {})
  {
    hide Covered, Sound, Apart, Stuck, SumLines;
    if Sound(nodes, roots, total) { RootsApart(nodes, roots, total); }
    assert roots[0..] == roots;
  }

  lemma {:induction false} FrontierHead(nodes: seq<SpanNode>, roots: seq<nat>, total: nat, limit: nat, start: nat,
    folded: set<nat>, visible: nat, queue: seq<nat>, queued: seq<nat>, popped: nat, unfolded: set<nat>)
    requires queue != []
    requires Frontier(nodes, roots, total, limit, start, folded, visible, queue, queued, popped, unfolded)
    ensures popped < |queued| <= |nodes| && queue[0] < |nodes| && queue[0] in folded && queue[0] !in queue[1..]
    ensures Refs(nodes, nodes[queue[0]].children)
  {
    hide Covered, SumLines, LinesOf, Stuck, Linked, Sound, Exact;
    FewEnough(nodes, queued);
    ChildrenRefs(nodes, roots);
    var idx := queue[0];
    assert idx in queue && idx == queued[popped];
    forall x | x in queue[1..] ensures x != idx {
      var k :| 0 <= k < |queue| - 1 && queue[1..][k] == x;
      assert queued[popped + 1 + k] == x;
    }
  }

  lemma {:induction false} FrontierSkip(nodes: seq<SpanNode>, roots: seq<nat>, total: nat, limit: nat, start: nat,
    folded: set<nat>, visible: nat, queue: seq<nat>, queued: seq<nat>, popped: nat, unfolded: set<nat>)
    requires queue != []
    requires Frontier(nodes, roots, total, limit, start, folded, visible, queue, queued, popped, unfolded)
    requires Stuck(nodes, queue[0], visible, limit)
    ensures Frontier(nodes, roots, total, limit, start, folded, visible, queue[1..], queued, popped + 1, unfolded)
  {
    hide Sound, Exact, Reached, Stuck, Linked;
    assert queued[popped..][1..] == queued[popped + 1..];
    assert queue == [queue[0]] + queue[1..];
  }

  lemma {:induction false} FrontierStep(nodes: seq<SpanNode>, roots: seq<nat>, total: nat, limit: nat, start: nat,
    folded: set<nat>, visible: nat, queue: seq<nat>, queued: seq<nat>, popped: nat, unfolded: set<nat>)
    requires queue != []
    requires Frontier(nodes, roots, total, limit, start, folded, visible, queue, queued, popped, unfolded)
    requires queue[0] < |nodes| && Refs(nodes, nodes[queue[0]].children)
    requires visible + Revealed(nodes, queue[0]) <= limit
    ensures var idx := queue[0]; var more := nodes[idx].children;
      Frontier(nodes, roots, total, limit, start, folded - {idx} + ToSet(more), visible + Revealed(nodes, idx),
        queue[1..] + more, queued + more, popped + 1, unfolded + {idx})
  {
    hide Sound, Exact, Reached, Revealed, Linked;
    FrontierHead(nodes, roots, total, limit, start, folded, visible, queue, queued, popped, unfolded);
    var idx := queue[0];
    var more := nodes[idx].children;
    QueuedFolded(nodes, roots, queued, unfolded);
    assert idx in queue && idx in folded && idx in ToSet(queued);
    if Sound(nodes, roots, total) { ExactStep(nodes, roots, total, folded, visible, idx); }
    ReachedMore(nodes, roots, queued, unfolded, idx);
    assert queue[1..] + more == (queued + more)[popped + 1..];
    var now := folded - {idx} + ToSet(more);
    forall f | f in now && f !in queue[1..] + more ensures Stuck(nodes, f, visible + Revealed(nodes, idx), limit) {
      assert f in folded && f != idx && queue == [idx] + queue[1..];
    }
  }

  lemma {:induction false} ExactStep(nodes: seq<SpanNode>, roots: seq<nat>, total: nat, folded: set<nat>, visible: nat,
    i: nat)
    requires Sound(nodes, roots, total) && Exact(nodes, roots, total, folded, visible) && i in folded
    ensures i < |nodes| && Refs(nodes, nodes[i].children)
    ensures Exact(nodes, roots, total, Replaced(nodes, folded, i), visible + Revealed(nodes, i))
  {
    hide Covered, Linked, Nested, SiblingsApart, SumLines, LinesOf;
    SoundParts(nodes, roots, total);
    ReplacedLines(nodes, roots, folded, i);
  }

  lemma {:induction false} SoundParts(nodes: seq<SpanNode>, roots: seq<nat>, total: nat)
    requires Sound(nodes, roots, total)
    ensures Linked(nodes, roots) && Nested(nodes) && SiblingsApart(nodes, roots)
  {
  }

  lemma {:induction false} QueuedFolded(nodes: seq<SpanNode>, roots: seq<nat>, queued: seq<nat>, unfolded: set<nat>)
    requires Reached(nodes, roots, queued, unfolded)
    ensures unfolded <= ToSet(queued)
  {
  }

  lemma {:induction false} FrontierEnd(nodes: seq<SpanNode>, roots: seq<nat>, total: nat, limit: nat, start: nat,
    folded: set<nat>, visible: nat, queue: seq<nat>, queued: seq<nat>, popped: nat, unfolded: set<nat>)
    requires Frontier(nodes, roots, total, limit, start, folded, visible, queue, queued, popped, unfolded)
    ensures visible <= Max(start, limit) && Distinct(queued) && Refs(nodes, queued) && folded <= ToSet(queued)
    ensures Sound(nodes, roots, total) ==> Exact(nodes, roots, total, folded, visible)
    ensures queue == [] ==> forall f :: f in folded ==> Stuck(nodes, f, visible, limit)
  {
    hide Sound, Exact, Stuck, Linked;
  }

  lemma {:induction false} ChildrenRefs(nodes: seq<SpanNode>, roots: seq<nat>)
    requires Linked(nodes, roots)
    ensures forall i :: 0 <= i < |nodes| ==> Refs(nodes, nodes[i].children)
  {
  }

  lemma {:induction false} RootsApart(nodes: seq<SpanNode>, roots: seq<nat>, total: nat)
    requires Sound(nodes, roots, total)
    ensures AllApart(nodes, ToSet(roots)) && |Covered(nodes, ToSet(roots))| == SumLines(nodes, roots) <= total
    ensures Reached(nodes, roots, roots, {})
    ensures forall i :: 0 <= i < |nodes| ==> Refs(nodes, nodes[i].children)
  {
    hide SumLines;
    ApartSum(nodes, roots);
    forall a, b | a in ToSet(roots) && b in ToSet(roots) && a != b ensures Disjoint(nodes[a].span, nodes[b].span) {
      var x :| 0 <= x < |roots| && roots[x] == a;
      var y :| 0 <= y < |roots| && roots[y] == b;
      if x < y {
        assert Disjoint(nodes[roots[x]].span, nodes[roots[y]].span);
      } else {
        assert Disjoint(nodes[roots[y]].span, nodes[roots[x]].span);
      }
    }
    forall l | l in Covered(nodes, ToSet(roots)) ensures l in UpTo(total + 1) - {0} {
      var r :| r in ToSet(roots) && l in Cover(nodes[r].span);
    }
    Subset(Covered(nodes, ToSet(roots)), UpTo(total + 1) - {0});
  }
}
