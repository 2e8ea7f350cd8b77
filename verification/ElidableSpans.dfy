/**
 Which lines a syntax tree lets go, told node by node.
 */
module ElidableSpans {
  import opened Basics
  import opened LineSpans
  import opened ElidableTree

  /** The nodes that are looked at: all below, but nothing inside a comment. */
  function Reached(n: Node): set<Node> {
    {n} + (if n.comment then {} else ReachedFrom(n.children))
  }

  function ReachedFrom(cs: seq<Node>): set<Node> {
    if cs == [] then {} else Reached(cs[0]) + ReachedFrom(cs[1..])
  }

  function SpansOf(e: Elision): set<Span> { {e.span} + AllSpans(e.inner) }

  /** All spans, at every depth. */
  function AllSpans(es: seq<Elision>): set<Span> {
    if es == [] then {} else SpansOf(es[0]) + AllSpans(es[1..])
  }

  function Lines(from: nat, to: nat): int { Max(to - from, 0) + 1 }

  /** A long comment loses its lines but the first two and the last. */
  predicate CommentLoses(n: Node, m: Limits, s: Span) {
    && n.comment && Lines(n.start, n.end) >= m.comment
    && s.start == n.start + 2 && s.end == n.end - 1 && s.start <= s.end
  }

  /** Any other node with a body loses the lines between the first and the last. */
  predicate BodyLoses(n: Node, m: Limits, s: Span) {
    && !n.comment && n.elidable && Lines(n.start, n.end) >= m.body
    && s.start == n.start + 1 && s.end == n.end - 1 && s.start <= s.end
  }

  /** Children `a` to `b` are groupable, two at least, and neither neighbour is. */
  predicate IsRun(cs: seq<Node>, a: nat, b: nat) {
    && a + 2 <= b <= |cs| && AllGroupable(cs, a, b)
    && (a > 0 ==> !cs[a - 1].groupable) && (b < |cs| ==> !cs[b].groupable)
  }

  /** A long run loses the lines behind its first member and before its last. */
  predicate RunLoses(cs: seq<Node>, a: nat, b: nat, m: Limits, s: Span) {
    && IsRun(cs, a, b) && Lines(cs[a].start, cs[b - 1].end) >= m.body
    && s.start == Min(cs[a].contentEnd, Max(cs[b - 1].start - 1, 0)) + 1
    && s.end == Max(cs[b - 1].start - 1, 0) && s.start <= s.end
  }

  predicate SomeRunLoses(cs: seq<Node>, m: Limits, s: Span) {
    exists a: nat, b: nat :: 0 <= a <= b <= |cs| && RunLoses(cs, a, b, m, s)
  }

  predicate Loses(n: Node, m: Limits, s: Span) {
    CommentLoses(n, m, s) || BodyLoses(n, m, s) || (!n.comment && SomeRunLoses(n.children, m, s))
  }

  lemma {:induction false} AllSpansAppend(a: seq<Elision>, b: seq<Elision>)
    ensures AllSpans(a + b) == AllSpans(a) + AllSpans(b)
  {
    hide SpansOf;
    if a == [] {
      assert a + b == b;
    } else {
      assert (a + b)[1..] == a[1..] + b;
      AllSpansAppend(a[1..], b);
    }
  }

  lemma {:induction false} OneSpan(o: Option<Span>, s: Span)
    ensures s in AllSpans(One(o)) <==> o == Some(s)
  {
    if o.Some? { assert One(o)[1..] == []; }
  }

  /** Seen from inside a run that began at `a`, the spans are those of the runs that end no earlier. */
  lemma {:induction false} RunsExactly(cs: seq<Node>, a: nat, i: nat, m: Limits, s: Span)
    requires a <= i <= |cs| && AllGroupable(cs, a, i) && (a > 0 ==> !cs[a - 1].groupable)
    ensures s in AllSpans(Runs(cs, a, i, m))
       <==> exists x: nat, y: nat :: a <= x <= y <= |cs| && y >= i && RunLoses(cs, x, y, m, s)
    decreases |cs| - i
  {
    hide RunSpan, RunLoses;
    if i == |cs| {
      RunEnds(cs, a, i, m, s);
    } else if cs[i].groupable {
      RunsExactly(cs, a, i + 1, m, s);
      forall x: nat | a <= x <= i ensures !RunLoses(cs, x, i, m, s) { NotRun(cs, x, i, m, s); }
    } else {
      RunEnds(cs, a, i, m, s);
      RunsExactly(cs, i + 1, i + 1, m, s);
      AllSpansAppend(One(RunSpan(cs, a, i, m)), Runs(cs, i + 1, i + 1, m));
      forall x: nat, y: nat | a <= x <= y <= |cs| && y >= i && x <= i && RunLoses(cs, x, y, m, s)
        ensures x == a && y == i
      {
        OnlyRun(cs, a, i, x, y, m, s);
      }
    }
  }

  lemma {:induction false} NotRun(cs: seq<Node>, x: nat, i: nat, m: Limits, s: Span)
    requires i < |cs| && cs[i].groupable
    ensures !RunLoses(cs, x, i, m, s)
  {
  }

  lemma {:induction false} OnlyRun(cs: seq<Node>, a: nat, i: nat, x: nat, y: nat, m: Limits, s: Span)
    requires a <= x <= i <= y <= |cs| && AllGroupable(cs, a, i) && i < |cs| && !cs[i].groupable
    requires RunLoses(cs, x, y, m, s)
    ensures x == a && y == i
  {
  }

  /** The run that ends at `i` is the current one. */
  lemma {:induction false} RunEnds(cs: seq<Node>, a: nat, i: nat, m: Limits, s: Span)
    requires a <= i <= |cs| && AllGroupable(cs, a, i) && (a > 0 ==> !cs[a - 1].groupable)
    requires i < |cs| ==> !cs[i].groupable
    ensures s in AllSpans(One(RunSpan(cs, a, i, m))) <==> RunLoses(cs, a, i, m, s)
    ensures forall x: nat :: a <= x <= i && RunLoses(cs, x, i, m, s) ==> x == a
  {
    OneSpan(RunSpan(cs, a, i, m), s);
  }

  lemma {:induction false} CommentLost(n: Node, m: Limits, s: Span)
    ensures CommentSpan(n, m) == Some(s) <==> CommentLoses(n, m, s)
  {
  }

  lemma {:induction false} BodyLost(n: Node, m: Limits, s: Span)
    requires !n.comment
    ensures BodySpan(n, m) == Some(s) <==> BodyLoses(n, m, s)
  {
  }

  lemma {:induction false} FirstOrInside(n: Node, m: Limits, s: Span)
    ensures (exists d :: d in Reached(n) && Loses(d, m, s))
       <==> Loses(n, m, s) || (!n.comment && exists d :: d in ReachedFrom(n.children) && Loses(d, m, s))
  {
    hide Loses, ReachedFrom;
    if Loses(n, m, s) { assert n in Reached(n); }
    if d :| !n.comment && d in ReachedFrom(n.children) && Loses(d, m, s) { assert d in Reached(n); }
  }

  /** The spans that a tree yields are exactly those that some node reached loses. */
  lemma {:induction false} YieldsExactly(n: Node, m: Limits, s: Span)
    ensures s in AllSpans(Elisions(n, m)) <==> exists d :: d in Reached(n) && Loses(d, m, s)
    decreases n, 2
  {
    hide Inner, RunSpan, CommentSpan, BodySpan, CommentLoses, BodyLoses, SomeRunLoses, Reached, ReachedFrom, AllSpans;
    CommentLost(n, m, s);
    FirstOrInside(n, m, s);
    if n.comment {
      OneSpan(CommentSpan(n, m), s);
      NoBody(n, m, s);
    } else {
      BodyLost(n, m, s);
      InnerYields(n, m, s);
      NoComment(n, m, s);
      match BodySpan(n, m)
      case Some(b) =>
        assert Elisions(n, m) == [Elision(b, Inner(n, m))];
        OneElision(Elision(b, Inner(n, m)));
      case None => assert Elisions(n, m) == Inner(n, m) && !BodyLoses(n, m, s);
    }
  }

  lemma {:induction false} OneElision(e: Elision)
    ensures AllSpans([e]) == {e.span} + AllSpans(e.inner)
  {
    assert [e][1..] == [];
  }

  lemma {:induction false} NoBody(n: Node, m: Limits, s: Span)
    requires n.comment
    ensures !BodyLoses(n, m, s)
  {
  }

  lemma {:induction false} NoComment(n: Node, m: Limits, s: Span)
    requires !n.comment
    ensures !CommentLoses(n, m, s)
  {
  }

  lemma {:induction false} InnerYields(n: Node, m: Limits, s: Span)
    ensures s in AllSpans(Inner(n, m)) <==>
      SomeRunLoses(n.children, m, s) || (exists d :: d in ReachedFrom(n.children) && Loses(d, m, s))
    decreases n, 1
  {
    hide Runs, Below, RunLoses, Loses, AllSpans;
    RunsExactly(n.children, 0, 0, m, s);
    BelowYields(n, |n.children|, m, s);
    assert n.children[..|n.children|] == n.children;
    AllSpansAppend(Runs(n.children, 0, 0, m), Below(n.children, m));
  }

  lemma {:induction false} BelowYields(n: Node, k: nat, m: Limits, s: Span)
    requires k <= |n.children|
    ensures s in AllSpans(Below(n.children[..k], m))
       <==> exists d :: d in ReachedFrom(n.children[..k]) && Loses(d, m, s)
    decreases n, 0, k
  {
    hide Loses, Elisions, Reached;
    if k == 0 {
      assert n.children[..0] == [];
    } else {
      var front, c := n.children[..k - 1], n.children[k - 1];
      BelowYields(n, k - 1, m, s);
      YieldsExactly(c, m, s);
      assert n.children[..k] == front + [c] && n.children[..k][..k - 1] == front;
      AllSpansAppend(Below(front, m), Elisions(c, m));
      ReachedEnd(front, c);
    }
  }

  lemma {:induction false} ReachedEnd(cs: seq<Node>, c: Node)
    ensures ReachedFrom(cs + [c]) == ReachedFrom(cs) + Reached(c)
  {
    hide Reached;
    if cs == [] {
      assert [c][1..] == [] && cs + [c] == [c];
    } else {
      assert (cs + [c])[1..] == cs[1..] + [c];
      ReachedEnd(cs[1..], c);
    }
  }

  /** What a node with a body loses holds all that is lost inside; otherwise that stands side by side. */
  lemma {:induction false} NestsExactly(n: Node, m: Limits, t: Span)
    requires !n.comment
    ensures var inside :=
        SomeRunLoses(n.children, m, t) || (exists d :: d in ReachedFrom(n.children) && Loses(d, m, t));
      if s :| BodyLoses(n, m, s) then
        && |Elisions(n, m)| == 1 && Elisions(n, m)[0].span == s && (t in AllSpans(Elisions(n, m)[0].inner) <==> inside)
      else
        t in AllSpans(Elisions(n, m)) <==> inside
  {
    hide Inner, RunSpan, BodySpan, BodyLoses, SomeRunLoses, ReachedFrom, AllSpans, Loses;
    InnerYields(n, m, t);
    forall s ensures BodySpan(n, m) == Some(s) <==> BodyLoses(n, m, s) { BodyLost(n, m, s); }
    match BodySpan(n, m)
    case Some(s) => assert BodyLoses(n, m, s);
    case None =>
  }
}
