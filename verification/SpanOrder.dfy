/**
 The arena of elidable spans as a forest, the order that breadth first means in it,
 and the one way there is to unfold it in that order.
 */
module SpanOrder {
  import opened Basics
  import opened LineSpans

  datatype SpanNode = SpanNode(span: Span, children: seq<nat>)

  predicate Refs(nodes: seq<SpanNode>, ids: seq<nat>) { forall i :: i in ids ==> i < |nodes| }

  /** Children come after their parent, and everything is pushed once, below one parent or as a root. */
  predicate Linked(nodes: seq<SpanNode>, roots: seq<nat>) {
    && Refs(nodes, roots)
    && (forall i :: 0 <= i < |nodes| ==> Refs(nodes, nodes[i].children) && Distinct(nodes[i].children))
    && (forall i, c :: 0 <= i < |nodes| && c in nodes[i].children ==> i < c)
    && (forall i, c :: 0 <= i < |nodes| && c in nodes[i].children ==> c !in roots)
    && (forall i, j, c :: 0 <= i < j < |nodes| && c in nodes[i].children ==> c !in nodes[j].children)
    && Distinct(roots)
  }

  predicate Distinct(ids: seq<nat>) { forall a, b :: 0 <= a < b < |ids| ==> ids[a] != ids[b] }

  function ToSet(ids: seq<nat>): set<nat> { set i | i in ids }

  function SumLines(nodes: seq<SpanNode>, ids: seq<nat>): nat
    requires Refs(nodes, ids)
  {
    if ids == [] then 0
    else
      assert ids[0] in ids && forall i :: i in ids[1..] ==> i in ids;
      LinesOf(nodes[ids[0]].span) + SumLines(nodes, ids[1..])
  }

  /** Lines that unfolding a node makes visible. */
  function Revealed(nodes: seq<SpanNode>, i: nat): nat
    requires i < |nodes| && Refs(nodes, nodes[i].children)
  {
    Minus(LinesOf(nodes[i].span), SumLines(nodes, nodes[i].children))
  }

  // ----- breadth first -----

  /** Node `i` is the child at `k` of node `p`. */
  predicate IsChild(nodes: seq<SpanNode>, p: nat, k: nat, i: nat) {
    p < |nodes| && k < |nodes[p].children| && nodes[p].children[k] == i
  }

  lemma {:induction false} OneParent(nodes: seq<SpanNode>, roots: seq<nat>, p: nat, k: nat, q: nat, j: nat, c: nat)
    requires Linked(nodes, roots) && IsChild(nodes, p, k, c) && IsChild(nodes, q, j, c)
    ensures p == q && k == j && p < c < |nodes| && c !in roots
  {
    assert c in nodes[p].children && c in nodes[q].children;
  }

  /** The way down to a node: its position among the roots, and at each step among the children. */
  ghost function Path(nodes: seq<SpanNode>, roots: seq<nat>, i: nat): seq<nat>
    requires Linked(nodes, roots) && i < |nodes|
    decreases i
  {
    if k: nat :| k < |roots| && roots[k] == i then [k]
    else if p: nat, k: nat :| p < i && IsChild(nodes, p, k, i) then
      Path(nodes, roots, p) + [k]
    else []
  }

  lemma {:induction false} PathOfRoot(nodes: seq<SpanNode>, roots: seq<nat>, k: nat)
    requires Linked(nodes, roots) && k < |roots|
    ensures roots[k] < |nodes| && Path(nodes, roots, roots[k]) == [k]
  {
    assert roots[k] in roots;
  }

  lemma {:induction false} PathOfChild(nodes: seq<SpanNode>, roots: seq<nat>, p: nat, k: nat)
    requires Linked(nodes, roots) && p < |nodes| && k < |nodes[p].children|
    ensures var c := nodes[p].children[k];
      p < c < |nodes| && Path(nodes, roots, c) == Path(nodes, roots, p) + [k]
  {
    var c := nodes[p].children[k];
    assert IsChild(nodes, p, k, c);
    forall q: nat, j: nat | IsChild(nodes, q, j, c) ensures q == p && j == k && p < c < |nodes| && c !in roots {
      OneParent(nodes, roots, p, k, q, j, c);
    }
    forall x | 0 <= x < |roots| ensures roots[x] != c { assert roots[x] in roots; }
  }

  /** Nearer the roots, or as near and further left. */
  predicate Before(a: seq<nat>, b: seq<nat>) { |a| < |b| || (|a| == |b| && FurtherLeft(a, b)) }

  predicate FurtherLeft(a: seq<nat>, b: seq<nat>)
    requires |a| == |b|
  {
    exists k :: 0 <= k < |a| && a[k] < b[k] && forall i :: 0 <= i < k ==> a[i] == b[i]
  }

  lemma {:induction false} OneWay(a: seq<nat>, b: seq<nat>)
    requires Before(a, b)
    ensures a != b && !Before(b, a)
  {
  }

  lemma {:induction false} BelowBefore(a: seq<nat>, b: seq<nat>, x: nat, y: nat)
    requires Before(a, b)
    ensures Before(a + [x], b + [y])
  {
    if |a| == |b| {
      var k :| 0 <= k < |a| && a[k] < b[k] && forall i :: 0 <= i < k ==> a[i] == b[i];
      assert (a + [x])[k] < (b + [y])[k];
    }
  }

  lemma {:induction false} SiblingsBefore(a: seq<nat>, x: nat, y: nat)
    requires x < y
    ensures Before(a + [x], a + [y])
  {
    assert (a + [x])[|a|] < (a + [y])[|a|];
  }

  /** What happened: the nodes queued, how many of them had their turn, and which of these were unfolded. */
  datatype Unfolding = Unfolding(queued: seq<nat>, turns: nat, unfolded: set<nat>)

  /** Nodes near the roots first, and nodes as near from left to right. */
  ghost predicate Ascending(nodes: seq<SpanNode>, roots: seq<nat>, ids: seq<nat>) {
    && Linked(nodes, roots) && Refs(nodes, ids)
    && forall i, j :: 0 <= i < j < |ids| ==>
         ids[i] in ids && ids[j] in ids && Before(Path(nodes, roots, ids[i]), Path(nodes, roots, ids[j]))
  }

  predicate ChildOfUnfolded(nodes: seq<SpanNode>, unfolded: set<nat>, q: nat) {
    exists p :: p in unfolded && p < |nodes| && q in nodes[p].children
  }

  /** Queued are the roots and the children of what was unfolded. */
  ghost predicate Offered(nodes: seq<SpanNode>, roots: seq<nat>, queued: seq<nat>, unfolded: set<nat>) {
    forall q: nat :: q in queued <==> q in roots || ChildOfUnfolded(nodes, unfolded, q)
  }

  /** The lines visible when the node at `k` has its turn. */
  function VisibleAt(nodes: seq<SpanNode>, start: nat, u: Unfolding, k: nat): nat
    requires k <= |u.queued| && Refs(nodes, u.queued) && forall i :: 0 <= i < |nodes| ==> Refs(nodes, nodes[i].children)
  {
    if k == 0 then start
    else
      var i := u.queued[k - 1];
      assert i in u.queued;
      VisibleAt(nodes, start, u, k - 1) + (if i in u.unfolded then Revealed(nodes, i) else 0)
  }

  /** A turn comes while the target is missed; the node is unfolded exactly when that stays within the limit. */
  predicate Turn(nodes: seq<SpanNode>, start: nat, until: nat, limit: nat, u: Unfolding, k: nat)
    requires k < |u.queued| && Refs(nodes, u.queued) && forall i :: 0 <= i < |nodes| ==> Refs(nodes, nodes[i].children)
  {
    var i := u.queued[k];
    assert i in u.queued;
    var visible := VisibleAt(nodes, start, u, k);
    visible < until && (i in u.unfolded <==> visible + Revealed(nodes, i) <= limit)
  }

  /** The first turns of a breadth-first unfolding. */
  ghost predicate Follows(nodes: seq<SpanNode>, roots: seq<nat>, start: nat, until: nat, limit: nat, u: Unfolding) {
    && Linked(nodes, roots) && Ascending(nodes, roots, u.queued) && Offered(nodes, roots, u.queued, u.unfolded)
    && u.turns <= |u.queued| && u.unfolded <= ToSet(u.queued[..u.turns])
    && forall k :: 0 <= k < u.turns ==> Turn(nodes, start, until, limit, u, k)
  }

  /** After these turns, everything queued and not unfolded is folded, and so many lines are visible. */
  ghost predicate Leaves(nodes: seq<SpanNode>, roots: seq<nat>, start: nat, until: nat, limit: nat, u: Unfolding,
    folded: set<nat>, visible: nat)
  {
    && Follows(nodes, roots, start, until, limit, u)
    && folded == ToSet(u.queued) - u.unfolded && visible == VisibleAt(nodes, start, u, u.turns)
  }

  /** The unfolding that ends when everything queued had its turn or enough lines are visible. */
  ghost predicate BreadthFirst(nodes: seq<SpanNode>, roots: seq<nat>, start: nat, until: nat, limit: nat, u: Unfolding,
    folded: set<nat>, visible: nat)
  {
    Leaves(nodes, roots, start, until, limit, u, folded, visible) && (u.turns < |u.queued| ==> visible >= until)
  }

  // ----- there is one such unfolding -----

  lemma {:induction false} AscendingDistinct(nodes: seq<SpanNode>, roots: seq<nat>, ids: seq<nat>)
    requires Ascending(nodes, roots, ids)
    ensures Distinct(ids)
  {
    forall i, j | 0 <= i < j < |ids| ensures ids[i] != ids[j] {
      assert ids[i] in ids && ids[j] in ids;
      OneWay(Path(nodes, roots, ids[i]), Path(nodes, roots, ids[j]));
    }
  }

  lemma {:induction false} InOrder(nodes: seq<SpanNode>, roots: seq<nat>, ids: seq<nat>, i: nat, j: nat)
    requires Ascending(nodes, roots, ids) && i < j < |ids|
    ensures ids[i] < |nodes| && ids[j] < |nodes|
    ensures Before(Path(nodes, roots, ids[i]), Path(nodes, roots, ids[j]))
  {
    assert ids[i] in ids && ids[j] in ids;
  }

  /** What is offered stands behind the node that offered it. */
  lemma {:induction false} ParentEarlier(nodes: seq<SpanNode>, roots: seq<nat>, ids: seq<nat>, p: nat, j: nat)
    requires Ascending(nodes, roots, ids) && p in ids && j < |ids| && p < |nodes| && ids[j] in nodes[p].children
    ensures p in ids[..j]
  {
    var i :| 0 <= i < |ids| && ids[i] == p;
    var k :| 0 <= k < |nodes[p].children| && nodes[p].children[k] == ids[j];
    PathOfChild(nodes, roots, p, k);
    if i > j {
      InOrder(nodes, roots, ids, j, i);
      assert false;
    }
    assert i < j;
    assert ids[..j][i] == p;
  }

  /** Two unfoldings went the same way for `k` turns. */
  predicate Agree(u: Unfolding, w: Unfolding, k: nat) {
    && k <= |u.queued| && k <= |w.queued| && u.queued[..k] == w.queued[..k]
    && forall i :: 0 <= i < k ==> (u.queued[i] in u.unfolded <==> u.queued[i] in w.unfolded)
  }

  lemma {:induction false} AgreeOtherWay(u: Unfolding, w: Unfolding, k: nat)
    requires Agree(u, w, k)
    ensures Agree(w, u, k)
  {
    forall i | 0 <= i < k ensures w.queued[i] == u.queued[i] { assert w.queued[..k][i] == u.queued[..k][i]; }
  }

  lemma {:induction false} SameVisible(nodes: seq<SpanNode>, start: nat, u: Unfolding, w: Unfolding, k: nat)
    requires forall i :: 0 <= i < |nodes| ==> Refs(nodes, nodes[i].children)
    requires Refs(nodes, u.queued) && Refs(nodes, w.queued) && Agree(u, w, k)
    ensures VisibleAt(nodes, start, u, k) == VisibleAt(nodes, start, w, k)
  {
    if k > 0 {
      assert u.queued[..k][..k - 1] == u.queued[..k - 1] && w.queued[..k][..k - 1] == w.queued[..k - 1];
      assert u.queued[..k][k - 1] == w.queued[..k][k - 1];
      SameVisible(nodes, start, u, w, k - 1);
    }
  }

  lemma {:induction false} OfferedToBoth(nodes: seq<SpanNode>, roots: seq<nat>, u: Unfolding, w: Unfolding, k: nat)
    requires Ascending(nodes, roots, u.queued)
    requires Offered(nodes, roots, u.queued, u.unfolded) && Offered(nodes, roots, w.queued, w.unfolded)
    requires Agree(u, w, k) && k < |u.queued| && u.unfolded <= ToSet(u.queued)
    ensures u.queued[k] in w.queued
  {
    hide Ascending;
    var x := u.queued[k];
    assert x in u.queued;
    if x !in roots {
      var p :| p in u.unfolded && p < |nodes| && x in nodes[p].children;
      ParentEarlier(nodes, roots, u.queued, p, k);
      var i :| 0 <= i < k && u.queued[..k][i] == p;
      assert u.queued[i] == p && p in w.unfolded;
      assert ChildOfUnfolded(nodes, w.unfolded, x);
    }
  }

  lemma {:induction false} AgreeAt(u: Unfolding, w: Unfolding, k: nat, i: nat)
    requires Agree(u, w, k) && i < k
    ensures u.queued[i] == w.queued[i]
  {
    assert w.queued[..k][i] == u.queued[..k][i];
  }

  /** What is next in one queue stands in the other as well, no earlier. */
  lemma {:induction false} NextIn(nodes: seq<SpanNode>, roots: seq<nat>, start: nat, until: nat, limit: nat,
    u: Unfolding, w: Unfolding, k: nat)
    requires Follows(nodes, roots, start, until, limit, u) && Follows(nodes, roots, start, until, limit, w)
    requires Agree(u, w, k) && k < |u.queued|
    ensures u.queued[k] in w.queued[k..]
  {
    hide Turn, Ascending, Offered;
    AscendingDistinct(nodes, roots, u.queued);
    OfferedToBoth(nodes, roots, u, w, k);
    var i :| 0 <= i < |w.queued| && w.queued[i] == u.queued[k];
    if i < k {
      AgreeAt(u, w, k, i);
      assert false;
    }
    assert w.queued[k..][i - k] == u.queued[k];
  }

  lemma {:induction false} SameNext(nodes: seq<SpanNode>, roots: seq<nat>, start: nat, until: nat, limit: nat,
    u: Unfolding, w: Unfolding, k: nat)
    requires Follows(nodes, roots, start, until, limit, u) && Follows(nodes, roots, start, until, limit, w)
    requires Agree(u, w, k) && k < |u.queued|
    ensures k < |w.queued| && u.queued[k] == w.queued[k]
    ensures u.queued[..k + 1] == w.queued[..k + 1]
  {
    hide Turn, Offered, Before;
    NextIn(nodes, roots, start, until, limit, u, w, k);
    AgreeOtherWay(u, w, k);
    NextIn(nodes, roots, start, until, limit, w, u, k);
    var x, y := u.queued[k], w.queued[k];
    if x != y {
      var i :| 0 <= i < |w.queued| - k && w.queued[k..][i] == x;
      var j :| 0 <= j < |u.queued| - k && u.queued[k..][j] == y;
      InOrder(nodes, roots, w.queued, k, k + i);
      InOrder(nodes, roots, u.queued, k, k + j);
      OneWay(Path(nodes, roots, x), Path(nodes, roots, y));
      assert false;
    }
    assert u.queued[..k + 1] == u.queued[..k] + [x] && w.queued[..k + 1] == w.queued[..k] + [y];
  }

  lemma {:induction false} SameTurns(nodes: seq<SpanNode>, roots: seq<nat>, start: nat, until: nat, limit: nat,
    u: Unfolding, w: Unfolding, k: nat)
    requires Follows(nodes, roots, start, until, limit, u) && Follows(nodes, roots, start, until, limit, w)
    requires w.turns < |w.queued| ==> VisibleAt(nodes, start, w, w.turns) >= until
    requires k <= u.turns
    ensures k <= w.turns && Agree(u, w, k)
  {
    hide Offered, Ascending;
    FollowsRefs(nodes, roots, start, until, limit, u);
    FollowsRefs(nodes, roots, start, until, limit, w);
    if k > 0 {
      SameTurns(nodes, roots, start, until, limit, u, w, k - 1);
      SameNext(nodes, roots, start, until, limit, u, w, k - 1);
      SameVisible(nodes, start, u, w, k - 1);
      assert Turn(nodes, start, until, limit, u, k - 1);
      assert k <= w.turns;
      assert Turn(nodes, start, until, limit, w, k - 1);
    }
  }

  lemma {:induction false} SameQueue(nodes: seq<SpanNode>, roots: seq<nat>, start: nat, until: nat, limit: nat,
    u: Unfolding, w: Unfolding, k: nat)
    requires Follows(nodes, roots, start, until, limit, u) && Follows(nodes, roots, start, until, limit, w)
    requires u.unfolded == w.unfolded && k <= |u.queued|
    ensures k <= |w.queued| && u.queued[..k] == w.queued[..k]
  {
    hide Offered, Ascending, Turn;
    if k > 0 {
      SameQueue(nodes, roots, start, until, limit, u, w, k - 1);
      SameNext(nodes, roots, start, until, limit, u, w, k - 1);
    }
  }

  lemma {:induction false} SameUnfolded(nodes: seq<SpanNode>, roots: seq<nat>, start: nat, until: nat, limit: nat,
    u: Unfolding, w: Unfolding)
    requires Follows(nodes, roots, start, until, limit, u) && Follows(nodes, roots, start, until, limit, w)
    requires u.turns == w.turns && Agree(u, w, u.turns)
    ensures u.unfolded <= w.unfolded
  {
    hide Offered, Ascending, Turn;
    forall i | i in u.unfolded ensures i in w.unfolded {
      assert i in u.queued[..u.turns];
    }
  }

  /** A forest, the lines visible at the start, the target and the limit leave one way to unfold. */
  lemma {:induction false} OneUnfolding(nodes: seq<SpanNode>, roots: seq<nat>, start: nat, until: nat, limit: nat,
    u: Unfolding, folded: set<nat>, visible: nat, w: Unfolding, folded': set<nat>, visible': nat)
    requires BreadthFirst(nodes, roots, start, until, limit, u, folded, visible)
    requires BreadthFirst(nodes, roots, start, until, limit, w, folded', visible')
    ensures u == w && folded == folded' && visible == visible'
  {
    hide Follows;
    FollowsRefs(nodes, roots, start, until, limit, u);
    FollowsRefs(nodes, roots, start, until, limit, w);
    SameTurns(nodes, roots, start, until, limit, u, w, u.turns);
    SameTurns(nodes, roots, start, until, limit, w, u, w.turns);
    SameUnfolded(nodes, roots, start, until, limit, u, w);
    SameUnfolded(nodes, roots, start, until, limit, w, u);
    SameQueue(nodes, roots, start, until, limit, u, w, |u.queued|);
    SameQueue(nodes, roots, start, until, limit, w, u, |w.queued|);
    assert u.queued[..|u.queued|] == u.queued && w.queued[..|w.queued|] == w.queued;
  }

  lemma {:induction false} FollowsRefs(nodes: seq<SpanNode>, roots: seq<nat>, start: nat, until: nat, limit: nat,
    u: Unfolding)
    requires Follows(nodes, roots, start, until, limit, u)
    ensures Refs(nodes, u.queued) && u.turns <= |u.queued|
    ensures forall i :: 0 <= i < |nodes| ==> Refs(nodes, nodes[i].children)
  {
    hide Turn, Offered;
  }

  // ----- going on -----

  lemma {:induction false} UnfoldStart(nodes: seq<SpanNode>, roots: seq<nat>, start: nat, until: nat, limit: nat)
    requires Linked(nodes, roots)
    ensures Leaves(nodes, roots, start, until, limit, Unfolding(roots, 0, {}), ToSet(roots), start)
  {
    forall i, j | 0 <= i < j < |roots|
      ensures roots[i] in roots && roots[j] in roots
      ensures Before(Path(nodes, roots, roots[i]), Path(nodes, roots, roots[j]))
    {
      PathOfRoot(nodes, roots, i);
      PathOfRoot(nodes, roots, j);
      SiblingsBefore([], i, j);
      assert [] + [i] == [i] && [] + [j] == [j];
    }
  }

  lemma {:induction false} UnfoldSkip(nodes: seq<SpanNode>, roots: seq<nat>, start: nat, until: nat, limit: nat,
    u: Unfolding, folded: set<nat>, visible: nat)
    requires Leaves(nodes, roots, start, until, limit, u, folded, visible) && u.turns < |u.queued| && visible < until
    requires u.queued[u.turns] < |nodes| && Refs(nodes, nodes[u.queued[u.turns]].children)
    requires visible + Revealed(nodes, u.queued[u.turns]) > limit
    ensures Leaves(nodes, roots, start, until, limit, u.(turns := u.turns + 1), folded, visible)
  {
    hide Ascending, Offered;
    var t := u.(turns := u.turns + 1);
    FollowsRefs(nodes, roots, start, until, limit, u);
    NotYet(nodes, roots, start, until, limit, u);
    assert t.queued[..t.turns] == u.queued[..u.turns] + [u.queued[u.turns]];
    forall k | 0 <= k < t.turns ensures Turn(nodes, start, until, limit, t, k) {
      SameVisible(nodes, start, u, t, k);
      if k < u.turns { assert Turn(nodes, start, until, limit, u, k); }
    }
    SameVisible(nodes, start, u, t, u.turns);
  }

  lemma {:induction false} NotYet(nodes: seq<SpanNode>, roots: seq<nat>, start: nat, until: nat, limit: nat,
    u: Unfolding)
    requires Follows(nodes, roots, start, until, limit, u) && u.turns < |u.queued|
    ensures u.queued[u.turns] !in u.queued[..u.turns] && u.queued[u.turns] !in u.unfolded
  {
    hide Ascending, Offered, Turn;
    AscendingDistinct(nodes, roots, u.queued);
  }

  /** The children of the node whose turn it is belong behind everything queued. */
  lemma {:induction false} ChildrenLast(nodes: seq<SpanNode>, roots: seq<nat>, u: Unfolding, q: nat, c: nat)
    requires Linked(nodes, roots) && Ascending(nodes, roots, u.queued) && Offered(nodes, roots, u.queued, u.unfolded)
    requires u.turns < |u.queued|
    requires u.unfolded <= ToSet(u.queued[..u.turns])
    requires q in u.queued && u.queued[u.turns] < |nodes| && c < |nodes[u.queued[u.turns]].children|
    ensures var child := nodes[u.queued[u.turns]].children[c];
      q < |nodes| && child < |nodes| && Before(Path(nodes, roots, q), Path(nodes, roots, child))
  {
    hide Ascending, Before, Path, Linked;
    var i := u.queued[u.turns];
    assert i in u.queued;
    PathOfChild(nodes, roots, i, c);
    PathNotEmpty(nodes, roots, u, i);
    if q in roots {
      var k :| 0 <= k < |roots| && roots[k] == q;
      PathOfRoot(nodes, roots, k);
      Shorter(Path(nodes, roots, q), Path(nodes, roots, nodes[i].children[c]));
    } else {
      var p :| p in u.unfolded && p < |nodes| && q in nodes[p].children;
      var j :| 0 <= j < |nodes[p].children| && nodes[p].children[j] == q;
      PathOfChild(nodes, roots, p, j);
      var x :| 0 <= x < u.turns && u.queued[..u.turns][x] == p;
      InOrder(nodes, roots, u.queued, x, u.turns);
      BelowBefore(Path(nodes, roots, p), Path(nodes, roots, i), j, c);
    }
  }

  lemma {:induction false} Shorter(a: seq<nat>, b: seq<nat>)
    requires |a| < |b|
    ensures Before(a, b)
  {
  }

  lemma {:induction false} PathNotEmpty(nodes: seq<SpanNode>, roots: seq<nat>, u: Unfolding, i: nat)
    requires Linked(nodes, roots) && Offered(nodes, roots, u.queued, u.unfolded) && i in u.queued
    ensures i < |nodes| && Path(nodes, roots, i) != []
  {
    hide Path;
    if i in roots {
      var k :| 0 <= k < |roots| && roots[k] == i;
      PathOfRoot(nodes, roots, k);
    } else {
      var p :| p in u.unfolded && p < |nodes| && i in nodes[p].children;
      var j :| 0 <= j < |nodes[p].children| && nodes[p].children[j] == i;
      PathOfChild(nodes, roots, p, j);
    }
  }

  lemma {:induction false} MoreAscending(nodes: seq<SpanNode>, roots: seq<nat>, u: Unfolding, i: nat)
    requires Linked(nodes, roots) && Ascending(nodes, roots, u.queued) && Offered(nodes, roots, u.queued, u.unfolded)
    requires u.turns < |u.queued|
    requires u.unfolded <= ToSet(u.queued[..u.turns]) && i == u.queued[u.turns] < |nodes|
    ensures Ascending(nodes, roots, u.queued + nodes[i].children)
  {
    hide Before, Path, Offered;
    var more := nodes[i].children;
    var ids := u.queued + more;
    assert forall x :: x in more ==> x < |nodes|;
    forall a, b | 0 <= a < b < |ids|
      ensures ids[a] in ids && ids[b] in ids && Before(Path(nodes, roots, ids[a]), Path(nodes, roots, ids[b]))
    {
      var n := |u.queued|;
      if b < n {
        InOrder(nodes, roots, u.queued, a, b);
      } else if a < n {
        ChildrenLast(nodes, roots, u, ids[a], b - n);
      } else {
        PathOfChild(nodes, roots, i, a - n);
        PathOfChild(nodes, roots, i, b - n);
        SiblingsBefore(Path(nodes, roots, i), a - n, b - n);
      }
    }
  }

  lemma {:induction false} MoreOffered(nodes: seq<SpanNode>, roots: seq<nat>, u: Unfolding, t: Unfolding, i: nat)
    requires Offered(nodes, roots, u.queued, u.unfolded) && i < |nodes|
    requires t.queued == u.queued + nodes[i].children && t.unfolded == u.unfolded + {i}
    ensures Offered(nodes, roots, t.queued, t.unfolded)
  {
    forall q: nat ensures q in t.queued <==> q in roots || ChildOfUnfolded(nodes, t.unfolded, q) {
      if q in u.queued && q !in roots {
        var p :| p in u.unfolded && p < |nodes| && q in nodes[p].children;
        assert p in t.unfolded;
      } else if q in nodes[i].children {
        assert i in t.unfolded;
      }
    }
  }

  lemma {:induction false} UnfoldStep(nodes: seq<SpanNode>, roots: seq<nat>, start: nat, until: nat, limit: nat,
    u: Unfolding, folded: set<nat>, visible: nat, i: nat)
    requires Leaves(nodes, roots, start, until, limit, u, folded, visible) && u.turns < |u.queued| && visible < until
    requires i == u.queued[u.turns] < |nodes| && Refs(nodes, nodes[i].children)
    requires visible + Revealed(nodes, i) <= limit
    ensures var more := nodes[i].children; var t := Unfolding(u.queued + more, u.turns + 1, u.unfolded + {i});
      Leaves(nodes, roots, start, until, limit, t, folded - {i} + ToSet(more), visible + Revealed(nodes, i))
  {
    hide Ascending, Offered;
    var t := Unfolding(u.queued + nodes[i].children, u.turns + 1, u.unfolded + {i});
    NotYet(nodes, roots, start, until, limit, u);
    MoreAscending(nodes, roots, u, i);
    MoreOffered(nodes, roots, u, t, i);
    StepAgrees(u, t, i, nodes[i].children);
    assert t.queued[..t.turns] == u.queued[..u.turns] + [i];
    FollowsRefs(nodes, roots, start, until, limit, u);
    AscendingRefs(nodes, roots, t.queued);
    forall k | 0 <= k < t.turns ensures Turn(nodes, start, until, limit, t, k) {
      AgreeLess(u, t, u.turns, k);
      SameVisible(nodes, start, u, t, k);
      if k < u.turns { assert Turn(nodes, start, until, limit, u, k) && u.queued[k] in u.queued[..u.turns]; }
    }
    SameVisible(nodes, start, u, t, u.turns);
    AscendingDistinct(nodes, roots, t.queued);
    SplitSet(u.queued, nodes[i].children, u.unfolded, i);
  }

  lemma {:induction false} AscendingRefs(nodes: seq<SpanNode>, roots: seq<nat>, ids: seq<nat>)
    requires Ascending(nodes, roots, ids)
    ensures Refs(nodes, ids)
  {
  }

  lemma {:induction false} SplitSet(queued: seq<nat>, more: seq<nat>, unfolded: set<nat>, i: nat)
    requires Distinct(queued + more) && i in queued && unfolded <= ToSet(queued)
    ensures ToSet(queued) - unfolded - {i} + ToSet(more) == ToSet(queued + more) - (unfolded + {i})
  {
    forall x | x in more ensures x !in queued {
      var k :| 0 <= k < |more| && more[k] == x;
      forall j | 0 <= j < |queued| ensures queued[j] != x {
        assert (queued + more)[j] != (queued + more)[|queued| + k];
      }
    }
  }

  lemma {:induction false} StepAgrees(u: Unfolding, t: Unfolding, i: nat, more: seq<nat>)
    requires u.turns < |u.queued| && i !in u.queued[..u.turns]
    requires t.queued == u.queued + more && t.unfolded == u.unfolded + {i}
    ensures Agree(u, t, u.turns)
  {
    forall k | 0 <= k < u.turns ensures u.queued[k] in u.unfolded <==> u.queued[k] in t.unfolded {
      assert u.queued[k] in u.queued[..u.turns];
    }
  }

  lemma {:induction false} AgreeLess(u: Unfolding, w: Unfolding, n: nat, k: nat)
    requires Agree(u, w, n) && k <= n
    ensures Agree(u, w, k)
  {
    assert u.queued[..n][..k] == u.queued[..k] && w.queued[..n][..k] == w.queued[..k];
  }
}
