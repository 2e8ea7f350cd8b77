/**
 Which spans of a syntax tree can be elided, and how they nest.
 */
module ElidableTree {
  import opened Basics
  import opened LineSpans

  /** A syntax node with its lines, counted from 1; `contentEnd` is the line of its last byte but a newline. */
  datatype Node = Node(
    comment: bool, elidable: bool, groupable: bool, start: nat, end: nat, contentEnd: nat, children: seq<Node>)

  datatype Limits = Limits(body: nat, comment: nat)

  /** An elidable span with those found inside it. */
  datatype Elision = Elision(span: Span, inner: seq<Elision>)

  function LineCount(n: Node): nat { Minus(n.end, n.start) + 1 }

  function CommentSpan(n: Node, m: Limits): Option<Span> {
    if n.comment && LineCount(n) >= m.comment && n.start + 2 <= Minus(n.end, 1)
      then Some(Span(n.start + 2, Minus(n.end, 1)))
    else None
  }

  function BodySpan(n: Node, m: Limits): Option<Span> {
    if n.elidable && LineCount(n) >= m.body && n.start + 1 <= Minus(n.end, 1)
      then Some(Span(n.start + 1, Minus(n.end, 1)))
    else None
  }

  /** What a run of groupable siblings hides: the lines after the first and before the last. */
  function RunSpan(cs: seq<Node>, a: nat, b: nat, m: Limits): Option<Span>
    requires a <= b <= |cs|
  {
    if b - a < 2 then None
    else
      var first, last := cs[a], cs[b - 1];
      var start := Min(first.contentEnd, Minus(last.start, 1)) + 1;
      if Minus(last.end, first.start) + 1 >= m.body && start <= Minus(last.start, 1)
        then Some(Span(start, Minus(last.start, 1)))
      else None
  }

  function One(s: Option<Span>): seq<Elision> { if s.None? then [] else [Elision(s.value, [])] }

  /** The runs from `i` on, the current one having begun at `a`. */
  function Runs(cs: seq<Node>, a: nat, i: nat, m: Limits): seq<Elision>
    requires a <= i <= |cs|
    decreases |cs| - i
  {
    if i == |cs| then One(RunSpan(cs, a, i, m))
    else if cs[i].groupable then Runs(cs, a, i + 1, m)
    else One(RunSpan(cs, a, i, m)) + Runs(cs, i + 1, i + 1, m)
  }

  function Elisions(n: Node, m: Limits): seq<Elision>
    decreases n, 1
  {
    if n.comment then One(CommentSpan(n, m))
    else
      var inner := Inner(n, m);
      match BodySpan(n, m)
      case Some(s) => [Elision(s, inner)]
      case None => inner
  }

  function Inner(n: Node, m: Limits): seq<Elision>
    decreases n, 0
  {
    Runs(n.children, 0, 0, m) + Below(n.children, m)
  }

  function Below(cs: seq<Node>, m: Limits): seq<Elision> {
    if cs == [] then [] else Below(cs[..|cs| - 1], m) + Elisions(cs[|cs| - 1], m)
  }

  // ----- well-placed trees -----

  /** Children lie inside their parent and follow each other, line by line; lines may be shared. */
  predicate WellPlaced(n: Node) {
    && 1 <= n.start <= n.end && n.end <= n.contentEnd + 1 && n.contentEnd <= n.end
    && (n.groupable ==> n.start <= n.contentEnd)
    && (forall c :: c in n.children ==> n.start <= c.start && c.end <= n.end && WellPlaced(c))
    && (forall i, j :: 0 <= i < j < |n.children| ==> n.children[i].end <= n.children[j].start)
  }

  predicate StandApart(es: seq<Elision>) {
    forall i, j :: 0 <= i < j < |es| ==> Disjoint(es[i].span, es[j].span)
  }

  predicate AllAcross(es: seq<Elision>, fs: seq<Elision>) {
    forall e, f :: e in es && f in fs ==> Disjoint(e.span, f.span)
  }

  /** Inside a span lie only spans within it, at every depth; with `apart`, siblings never overlap. */
  predicate Good(e: Elision, apart: bool) {
    && Proper(e.span) && (forall f :: f in e.inner ==> Inside(f.span, e.span) && Good(f, apart))
    && (apart ==> StandApart(e.inner))
  }

  predicate AllGood(es: seq<Elision>, apart: bool) { forall e :: e in es ==> Good(e, apart) }

  predicate Between(es: seq<Elision>, low: nat, high: nat) {
    forall e :: e in es ==> Proper(e.span) && low < e.span.start && e.span.end < high
  }

  // ----- runs -----

  predicate Placed(cs: seq<Node>, low: nat, high: nat) {
    && (forall c :: c in cs ==> low <= c.start && c.end <= high && WellPlaced(c))
    && (forall i, j :: 0 <= i < j < |cs| ==> cs[i].end <= cs[j].start)
  }

  /** The shape of a run span: behind the first member's last line, before the last member. */
  lemma {:induction false} RunShape(cs: seq<Node>, a: nat, b: nat, m: Limits, low: nat, high: nat)
    requires a <= b <= |cs| && Placed(cs, low, high) && RunSpan(cs, a, b, m).Some?
    requires forall k :: a <= k < b ==> cs[k].groupable
    ensures var s := RunSpan(cs, a, b, m).value;
      && a + 2 <= b && Proper(s) && low < s.start && s.end < high
      && s.start == cs[a].contentEnd + 1 && s.end + 1 == cs[b - 1].start
  {
    hide WellPlaced;
    assert cs[a] in cs && cs[b - 1] in cs;
    Facts(cs[a]);
    Facts(cs[b - 1]);
  }

  lemma {:induction false} Facts(n: Node)
    requires WellPlaced(n)
    ensures 1 <= n.start <= n.end <= n.contentEnd + 1 && n.contentEnd <= n.end
    ensures n.groupable ==> n.start <= n.contentEnd
    ensures Placed(n.children, n.start, n.end)
  {
  }

  predicate AllGroupable(cs: seq<Node>, a: nat, b: nat)
    requires a <= b <= |cs|
  {
    forall k :: a <= k < b ==> cs[k].groupable
  }

  predicate FromRun(cs: seq<Node>, a: nat, b: nat, m: Limits, e: Elision) {
    a <= b <= |cs| && AllGroupable(cs, a, b) && RunSpan(cs, a, b, m) == Some(e.span) && e.inner == []
  }

  /** Every elided run is a range of groupable siblings, the current one or one behind it. */
  lemma {:induction false} RunsAreRanges(cs: seq<Node>, a: nat, i: nat, m: Limits, e: Elision) returns (x: nat, y: nat)
    requires a <= i <= |cs| && AllGroupable(cs, a, i) && e in Runs(cs, a, i, m)
    ensures FromRun(cs, x, y, m, e) && a <= x && y >= i
    decreases |cs| - i
  {
    hide RunSpan;
    if e in One(RunSpan(cs, a, i, m)) && (i == |cs| || !cs[i].groupable) {
      x, y := a, i;
    } else if cs[i].groupable {
      x, y := RunsAreRanges(cs, a, i + 1, m, e);
    } else {
      x, y := RunsAreRanges(cs, i + 1, i + 1, m, e);
    }
  }

  lemma {:induction false} RangeShape(cs: seq<Node>, a: nat, b: nat, m: Limits, e: Elision, low: nat, high: nat)
    requires FromRun(cs, a, b, m, e) && Placed(cs, low, high)
    ensures a + 2 <= b && Proper(e.span) && low < e.span.start && e.span.end < high
    ensures e.span.start == cs[a].contentEnd + 1 && e.span.end + 1 == cs[b - 1].start
    ensures cs[a].start <= cs[a].contentEnd
  {
    hide WellPlaced, RunSpan;
    RunShape(cs, a, b, m, low, high);
    assert cs[a] in cs;
    Facts(cs[a]);
  }

  /** Two ranges of siblings, one behind the other, hide different lines. */
  lemma {:induction false} RangesApart(cs: seq<Node>, a: nat, b: nat, x: nat, y: nat, m: Limits, e: Elision, f: Elision,
    low: nat, high: nat)
    requires FromRun(cs, a, b, m, e) && FromRun(cs, x, y, m, f) && b <= x && Placed(cs, low, high)
    ensures Disjoint(e.span, f.span)
  {
    hide WellPlaced, RunSpan;
    RangeShape(cs, a, b, m, e, low, high);
    RangeShape(cs, x, y, m, f, low, high);
    assert cs[b - 1] in cs && cs[b - 1].end <= cs[x].start;
    Facts(cs[b - 1]);
  }

  lemma {:induction false} RunsApart(cs: seq<Node>, a: nat, i: nat, m: Limits, low: nat, high: nat)
    requires a <= i <= |cs| && Placed(cs, low, high) && AllGroupable(cs, a, i)
    ensures StandApart(Runs(cs, a, i, m)) && Between(Runs(cs, a, i, m), low, high)
    ensures forall e :: e in Runs(cs, a, i, m) ==> e.inner == []
    decreases |cs| - i
  {
    hide WellPlaced, RunSpan, Placed;
    forall e | e in Runs(cs, a, i, m)
      ensures e.inner == [] && Proper(e.span) && low < e.span.start && e.span.end < high
    {
      var x, y := RunsAreRanges(cs, a, i, m, e);
      RangeShape(cs, x, y, m, e, low, high);
    }
    if i < |cs| {
      if cs[i].groupable {
        RunsApart(cs, a, i + 1, m, low, high);
      } else {
        RunsApart(cs, i + 1, i + 1, m, low, high);
        forall e, f | e in One(RunSpan(cs, a, i, m)) && f in Runs(cs, i + 1, i + 1, m)
          ensures Disjoint(e.span, f.span)
        {
          var x, y := RunsAreRanges(cs, i + 1, i + 1, m, f);
          RangesApart(cs, a, i, x, y, m, e, f, low, high);
        }
        ApartJoin(One(RunSpan(cs, a, i, m)), Runs(cs, i + 1, i + 1, m));
      }
    }
  }

  lemma {:induction false} ApartJoin(es: seq<Elision>, fs: seq<Elision>)
    ensures StandApart(es + fs) <==> StandApart(es) && StandApart(fs) && AllAcross(es, fs)
  {
    var all := es + fs;
    assert forall i :: 0 <= i < |es| ==> all[i] == es[i];
    assert forall j :: 0 <= j < |fs| ==> all[|es| + j] == fs[j];
    if StandApart(all) {
      forall e, f | e in es && f in fs ensures Disjoint(e.span, f.span) {
        var i :| 0 <= i < |es| && es[i] == e;
        var j :| 0 <= j < |fs| && fs[j] == f;
        assert Disjoint(all[i].span, all[|es| + j].span);
      }
      forall i, j | 0 <= i < j < |fs| ensures Disjoint(fs[i].span, fs[j].span) {
        assert Disjoint(all[|es| + i].span, all[|es| + j].span);
      }
    }
    if StandApart(es) && StandApart(fs) && AllAcross(es, fs) {
      forall i, j | 0 <= i < j < |all| ensures Disjoint(all[i].span, all[j].span) {
        if i < |es| <= j { assert all[i] in es && all[j] in fs; }
      }
    }
  }

  // ----- children -----

  lemma {:induction false} BelowFrom(cs: seq<Node>, m: Limits, e: Elision) returns (k: nat)
    requires e in Below(cs, m)
    ensures k < |cs| && e in Elisions(cs[k], m)
  {
    hide Elisions;
    var n := |cs| - 1;
    if e in Elisions(cs[n], m) {
      k := n;
    } else {
      k := BelowFrom(cs[..n], m, e);
    }
  }

  lemma {:induction false} InBelow(cs: seq<Node>, m: Limits, k: nat, e: Elision)
    requires k < |cs| && e in Elisions(cs[k], m)
    ensures e in Below(cs, m)
  {
    hide Elisions;
    if k < |cs| - 1 {
      InBelow(cs[..|cs| - 1], m, k, e);
    }
  }

  predicate StrictlyIn(es: seq<Elision>, n: Node) { Between(es, n.start, n.end) }

  /** Whatever a node yields lies strictly between its first and its last line, and nests. */
  lemma {:induction false} ElisionsNest(n: Node, m: Limits)
    requires WellPlaced(n)
    ensures StrictlyIn(Elisions(n, m), n) && AllGood(Elisions(n, m), false)
    decreases n, 1
  {
    hide Runs, Below, RunSpan;
    if !n.comment {
      InnerNests(n, m);
    }
  }

  lemma {:induction false} InnerNests(n: Node, m: Limits)
    requires WellPlaced(n)
    ensures Between(Inner(n, m), n.start, n.end) && AllGood(Inner(n, m), false)
    decreases n, 0
  {
    hide Runs, Below, RunSpan, WellPlaced, Elisions;
    Facts(n);
    RunsApart(n.children, 0, 0, m, n.start, n.end);
    forall e | e in Below(n.children, m)
      ensures Proper(e.span) && n.start < e.span.start && e.span.end < n.end && Good(e, false)
    {
      var k := BelowFrom(n.children, m, e);
      assert n.children[k] in n.children;
      ElisionsNest(n.children[k], m);
    }
  }

  // ----- when siblings stand apart -----

  /** An elided run holds, between its ends, no member with something to elide. */
  predicate ClearRange(cs: seq<Node>, a: nat, b: nat, m: Limits)
    requires a <= b <= |cs|
  {
    RunSpan(cs, a, b, m).Some? ==> forall k :: a < k < b - 1 ==> Elisions(cs[k], m) == []
  }

  predicate ClearRuns(cs: seq<Node>, a: nat, i: nat, m: Limits)
    requires a <= i <= |cs|
    decreases |cs| - i
  {
    if i == |cs| then ClearRange(cs, a, i, m)
    else if cs[i].groupable then ClearRuns(cs, a, i + 1, m)
    else ClearRange(cs, a, i, m) && ClearRuns(cs, i + 1, i + 1, m)
  }

  /** All runs of the tree are clear; the inside of a comment is never looked at. */
  predicate Clear(n: Node, m: Limits) {
    n.comment || (ClearRuns(n.children, 0, 0, m) && forall c :: c in n.children ==> Clear(c, m))
  }

  lemma {:induction false} RunAndChild(cs: seq<Node>, a: nat, b: nat, k: nat, m: Limits, run: Elision, e: Elision,
    low: nat, high: nat)
    requires FromRun(cs, a, b, m, run) && Placed(cs, low, high) && k < |cs| && e in Elisions(cs[k], m)
    ensures Disjoint(run.span, e.span) <==> !(a < k < b - 1)
  {
    hide WellPlaced, RunSpan, Elisions;
    RangeShape(cs, a, b, m, run, low, high);
    assert cs[k] in cs && cs[a] in cs && cs[b - 1] in cs;
    ElisionsNest(cs[k], m);
    Facts(cs[k]);
    Facts(cs[a]);
    Facts(cs[b - 1]);
    if k < a {
      assert cs[k].end <= cs[a].start;
    } else if k > b - 1 {
      assert cs[b - 1].end <= cs[k].start;
    } else if a < k < b - 1 {
      assert cs[a].end <= cs[k].start && cs[k].end <= cs[b - 1].start;
    }
  }

  lemma {:induction false} RangeAcross(cs: seq<Node>, a: nat, b: nat, m: Limits, low: nat, high: nat)
    requires a <= b <= |cs| && AllGroupable(cs, a, b) && Placed(cs, low, high)
    ensures AllAcross(One(RunSpan(cs, a, b, m)), Below(cs, m)) <==> ClearRange(cs, a, b, m)
  {
    hide WellPlaced, RunSpan, Elisions, Placed, Below;
    if RunSpan(cs, a, b, m).Some? {
      var run := Elision(RunSpan(cs, a, b, m).value, []);
      if ClearRange(cs, a, b, m) {
        forall e | e in Below(cs, m) ensures Disjoint(run.span, e.span) {
          var k := BelowFrom(cs, m, e);
          RunAndChild(cs, a, b, k, m, run, e, low, high);
        }
      } else {
        var k :| a < k < b - 1 && Elisions(cs[k], m) != [];
        var e := Elisions(cs[k], m)[0];
        InBelow(cs, m, k, e);
        RunAndChild(cs, a, b, k, m, run, e, low, high);
        assert run in One(RunSpan(cs, a, b, m));
      }
    }
  }

  lemma {:induction false} RunsAcross(cs: seq<Node>, a: nat, i: nat, m: Limits, low: nat, high: nat)
    requires a <= i <= |cs| && AllGroupable(cs, a, i) && Placed(cs, low, high)
    ensures AllAcross(Runs(cs, a, i, m), Below(cs, m)) <==> ClearRuns(cs, a, i, m)
    decreases |cs| - i
  {
    hide RunSpan, Placed, Below, ClearRange;
    RangeAcross(cs, a, i, m, low, high);
    if i < |cs| {
      if cs[i].groupable {
        RunsAcross(cs, a, i + 1, m, low, high);
      } else {
        RunsAcross(cs, i + 1, i + 1, m, low, high);
        AcrossJoin(One(RunSpan(cs, a, i, m)), Runs(cs, i + 1, i + 1, m), Below(cs, m));
      }
    }
  }

  lemma {:induction false} AcrossJoin(es: seq<Elision>, fs: seq<Elision>, gs: seq<Elision>)
    ensures AllAcross(es + fs, gs) <==> AllAcross(es, gs) && AllAcross(fs, gs)
  {
    assert forall e :: e in es + fs <==> e in es || e in fs;
  }

  /** Different children never overlap, so those of all children stand apart when those of each do. */
  lemma {:induction false} BelowApart(cs: seq<Node>, m: Limits, low: nat, high: nat)
    requires Placed(cs, low, high)
    ensures StandApart(Below(cs, m)) <==> forall c :: c in cs ==> StandApart(Elisions(c, m))
  {
    hide WellPlaced, Elisions, StandApart;
    if cs == [] {
      NoneApart();
    } else {
      var n := |cs| - 1;
      var front, c := cs[..n], cs[n];
      assert cs == front + [c];
      assert forall d :: d in cs <==> d in front || d == c;
      assert c in cs;
      BelowApart(front, m, low, high);
      forall e, f | e in Below(front, m) && f in Elisions(c, m) ensures Disjoint(e.span, f.span) {
        var k := BelowFrom(front, m, e);
        assert cs[k] == front[k] && cs[k] in cs && cs[k].end <= c.start;
        ElisionsNest(cs[k], m);
        ElisionsNest(c, m);
      }
      ApartJoin(Below(front, m), Elisions(c, m));
    }
  }

  lemma {:induction false} NoneApart()
    ensures StandApart([])
  {
  }

  predicate ApartAtAllLevels(es: seq<Elision>) { StandApart(es) && AllGood(es, true) }

  /** Siblings stand apart at every level exactly when no elided run hides something elidable between its ends. */
  lemma {:induction false} ApartExactly(n: Node, m: Limits)
    requires WellPlaced(n)
    ensures ApartAtAllLevels(Elisions(n, m)) <==> Clear(n, m)
    decreases n
  {
    hide Runs, Below, RunSpan, WellPlaced, ClearRuns, StandApart;
    Facts(n);
    if n.comment {
      OneApart(CommentSpan(n, m));
    } else {
      var cs := n.children;
      forall c | c in cs ensures ApartAtAllLevels(Elisions(c, m)) <==> Clear(c, m) {
        ApartExactly(c, m);
      }
      InnerNests(n, m);
      RunsApart(cs, 0, 0, m, n.start, n.end);
      ApartJoin(Runs(cs, 0, 0, m), Below(cs, m));
      RunsAcross(cs, 0, 0, m, n.start, n.end);
      BelowApart(cs, m, n.start, n.end);
      InnerGood(n, m);
      BodyGood(n, m);
    }
  }

  lemma {:induction false} OneApart(s: Option<Span>)
    requires s.Some? ==> Proper(s.value)
    ensures ApartAtAllLevels(One(s))
  {
  }

  lemma {:induction false} InnerGood(n: Node, m: Limits)
    requires WellPlaced(n)
    ensures AllGood(Inner(n, m), true) <==> forall c :: c in n.children ==> AllGood(Elisions(c, m), true)
  {
    hide Runs, Below, RunSpan, WellPlaced, Elisions, Good;
    Facts(n);
    var cs := n.children;
    RunsApart(cs, 0, 0, m, n.start, n.end);
    forall e | e in Runs(cs, 0, 0, m) ensures Good(e, true) {
      LeafGood(e);
    }
    if AllGood(Inner(n, m), true) {
      forall c, e | c in cs && e in Elisions(c, m) ensures Good(e, true) {
        var k :| 0 <= k < |cs| && cs[k] == c;
        InBelow(cs, m, k, e);
        assert e in Inner(n, m);
      }
    }
    if forall c :: c in cs ==> AllGood(Elisions(c, m), true) {
      forall e | e in Below(cs, m) ensures Good(e, true) {
        var k := BelowFrom(cs, m, e);
        assert cs[k] in cs;
      }
    }
  }

  lemma {:induction false} LeafGood(e: Elision)
    requires Proper(e.span) && e.inner == []
    ensures Good(e, true)
  {
  }

  /** Wrapping what is inside into the node's own span moves the condition one level down. */
  lemma {:induction false} BodyGood(n: Node, m: Limits)
    requires WellPlaced(n) && !n.comment && Between(Inner(n, m), n.start, n.end)
    ensures ApartAtAllLevels(Elisions(n, m)) <==> ApartAtAllLevels(Inner(n, m))
  {
    hide Inner;
    if BodySpan(n, m).Some? {
      var e := Elision(BodySpan(n, m).value, Inner(n, m));
      assert Elisions(n, m) == [e] && e in Elisions(n, m);
    }
  }

  // ----- when containment is strict -----

  /** At every depth, what lies inside a span is a smaller one. */
  predicate Strict(e: Elision) { forall f :: f in e.inner ==> Inside(f.span, e.span) && f.span != e.span && Strict(f) }

  predicate AllStrict(es: seq<Elision>) { forall e :: e in es ==> Strict(e) }

  predicate HasSpan(es: seq<Elision>, s: Span) { exists e :: e in es && e.span == s }

  /**
   Something directly inside the node yields this very span: a run of its children, a child, or what is inside a
   child that yields nothing itself.
   */
  predicate Fills(n: Node, s: Span, m: Limits)
    decreases n, 0
  {
    HasSpan(Runs(n.children, 0, 0, m), s) || exists c :: c in n.children && ChildFills(c, s, m)
  }

  predicate ChildFills(c: Node, s: Span, m: Limits)
    decreases c, 1
  {
    if c.comment then CommentSpan(c, m) == Some(s)
    else if BodySpan(c, m).Some? then BodySpan(c, m) == Some(s)
    else Fills(c, s, m)
  }

  /** No node that yields a span is filled by what is inside it. */
  predicate NoneFilled(n: Node, m: Limits) {
    n.comment
    || ((BodySpan(n, m).Some? ==> !Fills(n, BodySpan(n, m).value, m))
        && forall c :: c in n.children ==> NoneFilled(c, m))
  }

  lemma {:induction false} SpanOfChild(c: Node, s: Span, m: Limits)
    ensures HasSpan(Elisions(c, m), s) <==> ChildFills(c, s, m)
    decreases c, 1
  {
    hide Runs, Below, RunSpan, CommentSpan, BodySpan, Fills;
    if c.comment {
      HasOne(CommentSpan(c, m), s);
    } else if BodySpan(c, m).Some? {
      HasFirst(Elision(BodySpan(c, m).value, Inner(c, m)), s);
    } else {
      SpanInside(c, s, m);
    }
  }

  lemma {:induction false} HasOne(o: Option<Span>, s: Span)
    ensures HasSpan(One(o), s) <==> o == Some(s)
  {
    if o.Some? { HasFirst(Elision(o.value, []), s); }
  }

  lemma {:induction false} HasFirst(e: Elision, s: Span)
    ensures HasSpan([e], s) <==> e.span == s
  {
    assert e in [e];
  }

  lemma {:induction false} SpanInside(n: Node, s: Span, m: Limits)
    ensures HasSpan(Inner(n, m), s) <==> Fills(n, s, m)
    decreases n, 0
  {
    hide Runs, Below, RunSpan, ChildFills, Elisions;
    var cs := n.children;
    forall c | c in cs ensures HasSpan(Elisions(c, m), s) <==> ChildFills(c, s, m) {
      SpanOfChild(c, s, m);
    }
    if HasSpan(Inner(n, m), s) {
      var e :| e in Inner(n, m) && e.span == s;
      if e !in Runs(cs, 0, 0, m) {
        var k := BelowFrom(cs, m, e);
        assert cs[k] in cs && HasSpan(Elisions(cs[k], m), s);
      }
    }
    if Fills(n, s, m) && !HasSpan(Runs(cs, 0, 0, m), s) {
      var c :| c in cs && ChildFills(c, s, m);
      var e :| e in Elisions(c, m) && e.span == s;
      var k :| 0 <= k < |cs| && cs[k] == c;
      InBelow(cs, m, k, e);
      assert e in Inner(n, m);
    } else if Fills(n, s, m) {
      var e :| e in Runs(cs, 0, 0, m) && e.span == s;
      assert e in Inner(n, m);
    }
  }

  /** A child's span is strictly within its parent's, at every depth, exactly when nothing fills the node around it. */
  lemma {:induction false} StrictExactly(n: Node, m: Limits)
    requires WellPlaced(n)
    ensures AllStrict(Elisions(n, m)) <==> NoneFilled(n, m)
    decreases n
  {
    hide Runs, Below, RunSpan, WellPlaced, Fills, CommentSpan, BodySpan;
    if n.comment {
      OneStrict(CommentSpan(n, m));
    } else {
      var cs := n.children;
      Facts(n);
      InnerNests(n, m);
      forall c | c in cs ensures AllStrict(Elisions(c, m)) <==> NoneFilled(c, m) {
        StrictExactly(c, m);
      }
      InnerStrict(n, m);
      if BodySpan(n, m).Some? {
        var e := Elision(BodySpan(n, m).value, Inner(n, m));
        SpanInside(n, e.span, m);
        BodyInside(n, m);
        OuterStrict(e);
        assert Elisions(n, m) == [e] && e in [e];
      }
    }
  }

  lemma {:induction false} OneStrict(s: Option<Span>)
    ensures AllStrict(One(s))
  {
  }

  /** What a body span holds lies inside it, because it lies strictly between the node's first and last line. */
  lemma {:induction false} BodyInside(n: Node, m: Limits)
    requires WellPlaced(n) && BodySpan(n, m).Some? && Between(Inner(n, m), n.start, n.end)
    ensures forall f :: f in Inner(n, m) ==> Inside(f.span, BodySpan(n, m).value)
  {
    hide Inner;
  }

  lemma {:induction false} OuterStrict(e: Elision)
    requires forall f :: f in e.inner ==> Inside(f.span, e.span)
    ensures Strict(e) <==> !HasSpan(e.inner, e.span) && AllStrict(e.inner)
  {
  }

  lemma {:induction false} InnerStrict(n: Node, m: Limits)
    requires WellPlaced(n)
    ensures AllStrict(Inner(n, m)) <==> forall c :: c in n.children ==> AllStrict(Elisions(c, m))
  {
    hide Runs, Below, RunSpan, WellPlaced, Elisions, Strict;
    Facts(n);
    var cs := n.children;
    RunsApart(cs, 0, 0, m, n.start, n.end);
    forall e | e in Runs(cs, 0, 0, m) ensures Strict(e) {
      LeafStrict(e);
    }
    if AllStrict(Inner(n, m)) {
      forall c, e | c in cs && e in Elisions(c, m) ensures Strict(e) {
        var k :| 0 <= k < |cs| && cs[k] == c;
        InBelow(cs, m, k, e);
        assert e in Inner(n, m);
      }
    }
    if forall c :: c in cs ==> AllStrict(Elisions(c, m)) {
      forall e | e in Below(cs, m) ensures Strict(e) {
        var k := BelowFrom(cs, m, e);
        assert cs[k] in cs;
      }
    }
  }

  lemma {:induction false} LeafStrict(e: Elision)
    requires e.inner == []
    ensures Strict(e)
  {
  }

  /** A bracket in a bracket, opened on one line and closed on one line: both yield the same lines. */
  const BRACKETS := Node(false, true, false, 1, 5, 5, [Node(false, true, false, 1, 5, 5, [])])

  lemma {:induction false} BracketsShareSpan()
    ensures WellPlaced(BRACKETS)
    ensures Elisions(BRACKETS, Limits(4, 6)) == [Elision(Span(2, 4), [Elision(Span(2, 4), [])])]
  {
    var inner, m := BRACKETS.children[0], Limits(4, 6);
    assert WellPlaced(inner);
    assert Below([], m) == [] && Runs([], 0, 0, m) == [] && [] + [] == Inner(inner, m);
    assert BodySpan(inner, m) == Some(Span(2, 4)) && BodySpan(BRACKETS, m) == Some(Span(2, 4));
    assert Elisions(inner, m) == [Elision(Span(2, 4), [])];
    assert Runs([inner], 1, 1, m) == [] && Runs([inner], 0, 0, m) == [] + Runs([inner], 1, 1, m);
    assert [inner][..0] == [] && Below([inner], m) == [] + [Elision(Span(2, 4), [])];
    assert BRACKETS.children == [inner] && Inner(BRACKETS, m) == [] + [Elision(Span(2, 4), [])];
    assert Inner(BRACKETS, m) == [Elision(Span(2, 4), [])];
    assert Elisions(BRACKETS, m) == [Elision(Span(2, 4), Inner(BRACKETS, m))];
  }
}
