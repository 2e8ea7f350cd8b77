/**
 Spans of lines, and lists of spans.
 */
module LineSpans {
  import opened Basics
  import opened StableSorting

  /** Subtraction of unsigned numbers that stops at 0. */
  function Minus(a: nat, b: nat): nat { if a >= b then a - b else 0 }

  /** Line numbers from 1, both ends included. */
  datatype Span = Span(start: nat, end: nat)

  function LinesOf(s: Span): nat { (if s.end >= s.start then s.end - s.start else 0) + 1 }

  predicate Proper(s: Span) { s.start <= s.end }

  predicate HasLine(s: Span, l: nat) { s.start <= l <= s.end }

  function Cover(s: Span): set<nat> { set l: nat | s.start <= l <= s.end && HasLine(s, l) }

  predicate Inside(a: Span, b: Span) { b.start <= a.start && a.end <= b.end }

  predicate Disjoint(a: Span, b: Span) { a.end < b.start || b.end < a.start }

  lemma {:induction false} CoverSize(s: Span)
    requires s.start <= s.end
    ensures |Cover(s)| == LinesOf(s)
    decreases s.end
  {
    if s.start == s.end {
      assert Cover(s) == {s.end};
    } else {
      CoverSize(Span(s.start, s.end - 1));
      assert Cover(s) == Cover(Span(s.start, s.end - 1)) + {s.end};
    }
  }

  lemma {:induction false} DisjointCovers(a: Span, b: Span)
    requires a.start <= a.end && b.start <= b.end
    ensures Disjoint(a, b) <==> Cover(a) !! Cover(b)
  {
    if !Disjoint(a, b) {
      var l := if a.start >= b.start then a.start else b.start;
      assert l in Cover(a) && l in Cover(b);
    }
  }

  lemma {:induction false} InsideCovers(a: Span, b: Span)
    requires Inside(a, b)
    ensures Cover(a) <= Cover(b)
  {
  }

  lemma {:induction false} Subset(a: set<nat>, b: set<nat>)
    requires a <= b
    ensures |a| <= |b|
  {
    assert b == a + (b - a);
  }

  // ----- lists of spans -----

  predicate Covers(spans: seq<Span>, l: nat) { exists s :: s in spans && HasLine(s, l) }

  /** In order, none empty, and at least one line left out between any two. */
  predicate Canonical(spans: seq<Span>) {
    && (forall i :: 0 <= i < |spans| ==> Proper(spans[i]))
    && (forall i, j :: 0 <= i < j < |spans| ==> spans[i].end + 1 < spans[j].start)
  }

  /** Canonical lists that cover the same lines are the same list. */
  lemma {:induction false} CanonicalUnique(a: seq<Span>, b: seq<Span>)
    requires Canonical(a) && Canonical(b) && forall l: nat :: Covers(a, l) <==> Covers(b, l)
    ensures a == b
    decreases |a| + |b|
  {
    if a == [] || b == [] {
      if a != [] { FirstCovered(a); }
      if b != [] { FirstCovered(b); }
    } else {
      FirstCovered(a);
      FirstCovered(b);
      assert a[0].start == b[0].start;
      assert a[0].end == b[0].end;
      TailCovers(a);
      TailCovers(b);
      CanonicalUnique(a[1..], b[1..]);
      assert a == [a[0]] + a[1..] && b == [b[0]] + b[1..];
    }
  }

  lemma {:induction false} FirstCovered(a: seq<Span>)
    requires Canonical(a) && a != []
    ensures Covers(a, a[0].start) && Covers(a, a[0].end) && !Covers(a, a[0].end + 1)
    ensures forall l: nat :: Covers(a, l) ==> a[0].start <= l
    ensures forall l: nat :: a[0].start <= l <= a[0].end ==> Covers(a, l)
  {
    assert a[0] in a;
    assert HasLine(a[0], a[0].start) && HasLine(a[0], a[0].end);
    forall l: nat | a[0].start <= l <= a[0].end ensures Covers(a, l) { assert HasLine(a[0], l); }
    forall s | s in a ensures s == a[0] || a[0].end + 1 < s.start {
      var i :| 0 <= i < |a| && a[i] == s;
    }
  }

  lemma {:induction false} TailCovers(a: seq<Span>)
    requires Canonical(a) && a != []
    ensures Canonical(a[1..]) && forall l: nat :: Covers(a[1..], l) <==> Covers(a, l) && l > a[0].end
  {
    assert a == [a[0]] + a[1..];
    forall s | s in a[1..] ensures a[0].end + 1 < s.start {
      var i :| 0 <= i < |a| - 1 && a[1..][i] == s;
      assert a[i + 1] == s;
    }
    assert forall s :: s in a <==> s == a[0] || s in a[1..];
  }

  lemma {:induction false} CoversJoin(a: seq<Span>, b: seq<Span>, l: nat)
    ensures Covers(a + b, l) <==> Covers(a, l) || Covers(b, l)
  {
    assert forall s :: s in a + b <==> s in a || s in b;
  }

  lemma {:induction false} CoversOne(s: Span, l: nat)
    ensures Covers([s], l) <==> HasLine(s, l)
  {
    assert s in [s];
  }

  // ----- merging a sorted list -----

  predicate SpanAfter(a: Span, b: Span) { a.start > b.start || (a.start == b.start && a.end > b.end) }

  lemma {:induction false} SpanOrder()
    ensures Consistent(SpanAfter)
  {
  }

  /** Join a span to the last one if they touch, else put it behind. */
  function Absorb(merged: seq<Span>, s: Span): seq<Span> {
    var n := |merged| - 1;
    if merged != [] && s.start <= merged[n].end + 1 then merged[n := Span(merged[n].start, Max(merged[n].end, s.end))]
    else merged + [s]
  }

  lemma {:induction false} AbsorbKeeps(merged: seq<Span>, s: Span)
    requires Canonical(merged) && Proper(s) && (merged != [] ==> merged[|merged| - 1].start <= s.start)
    ensures var r := Absorb(merged, s); Canonical(r) && r[|r| - 1].start <= s.start
    ensures forall l: nat :: Covers(Absorb(merged, s), l) <==> Covers(merged, l) || HasLine(s, l)
  {
    var n, r := |merged| - 1, Absorb(merged, s);
    if merged != [] && s.start <= merged[n].end + 1 {
      var front, last, joined := merged[..n], merged[n], r[n];
      assert merged == front + [last] && r == front + [joined];
      forall l: nat ensures Covers(r, l) <==> Covers(merged, l) || HasLine(s, l) {
        CoversJoin(front, [last], l);
        CoversJoin(front, [joined], l);
        CoversOne(last, l);
        CoversOne(joined, l);
      }
    } else {
      forall l: nat ensures Covers(r, l) <==> Covers(merged, l) || HasLine(s, l) {
        CoversJoin(merged, [s], l);
        CoversOne(s, l);
      }
    }
  }

  /** What the merging loops keep: the first `i` of the sorted spans are merged. */
  ghost predicate Merging(xs: seq<Span>, i: nat, merged: seq<Span>) {
    && i <= |xs| && Canonical(merged) && Sorted(xs, SpanAfter) && (forall s :: s in xs ==> Proper(s))
    && (forall l: nat :: Covers(merged, l) <==> Covers(xs[..i], l))
    && (merged != [] ==> i > 0 && merged[|merged| - 1].start <= xs[i - 1].start)
  }

  lemma {:induction false} MergingStart(xs: seq<Span>)
    requires Sorted(xs, SpanAfter) && forall s :: s in xs ==> Proper(s)
    ensures Merging(xs, 0, [])
  {
  }

  lemma {:induction false} MergingStep(xs: seq<Span>, i: nat, merged: seq<Span>)
    requires Merging(xs, i, merged) && i < |xs|
    ensures Merging(xs, i + 1, Absorb(merged, xs[i]))
  {
    hide Covers, HasLine, Absorb;
    assert xs[i] in xs;
    if i > 0 { assert !SpanAfter(xs[i - 1], xs[i]); }
    AbsorbKeeps(merged, xs[i]);
    assert xs[..i + 1] == xs[..i] + [xs[i]];
    forall l: nat ensures Covers(Absorb(merged, xs[i]), l) <==> Covers(xs[..i + 1], l) {
      CoversJoin(xs[..i], [xs[i]], l);
      CoversOne(xs[i], l);
    }
  }

  lemma {:induction false} MergingEnd(xs: seq<Span>, merged: seq<Span>)
    requires Merging(xs, |xs|, merged)
    ensures Canonical(merged) && forall l: nat :: Covers(merged, l) <==> Covers(xs, l)
  {
    assert xs[..|xs|] == xs;
  }

  lemma {:induction false} SortedSpans(xs: seq<Span>)
    ensures var r := StableSort(xs, SpanAfter);
      && Sorted(r, SpanAfter) && |r| == |xs|
      && (forall s :: s in r <==> s in xs) && (forall l: nat :: Covers(r, l) <==> Covers(xs, l))
  {
    var r := StableSort(xs, SpanAfter);
    SpanOrder();
    SortSorts(xs, SpanAfter);
    SortKeeps(xs, SpanAfter);
    assert forall s :: s in r <==> s in multiset(r);
    assert forall s :: s in xs <==> s in multiset(xs);
    assert |multiset(r)| == |multiset(xs)|;
  }
}
