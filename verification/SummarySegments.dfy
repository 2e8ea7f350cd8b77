/**
 From folded spans to the segments of a summary.
 */
module SummarySegments {
  import opened Basics
  import opened StableSorting
  import opened LineSpans
  import opened SpanForest
  import opened SpanOrder
  import opened ElidableTree
  import opened ElidableArena

  // ----- normalizing -----

  /** Drop what is empty or lies behind the file, cut at the end of the file, sort and merge. */
  method NormalizeSpans(spans: seq<Span>, total: nat) returns (merged: seq<Span>)
    ensures Canonical(merged) && forall s :: s in merged ==> s.end <= total
    ensures forall l: nat :: 1 <= l ==> (Covers(merged, l) <==> Covers(spans, l) && l <= total)
  {
    if total == 0 { return []; }
    var kept := Clipped(spans, total);
    ClippedCovers(spans, total);
    var sorted := StableSort(kept, SpanAfter);
    SortedSpans(kept);
    merged := [];
    MergingStart(sorted);
    for i := 0 to |sorted|
      invariant Merging(sorted, i, merged) && forall s :: s in merged ==> s.end <= total
    {
      hide Merging, Covers, Sorted, StableSort, Canonical;
      assert sorted[i] in kept by { assert sorted[i] in sorted; }
      MergingStep(sorted, i, merged);
      var span := sorted[i];
      var n := |merged| - 1;
      if merged != [] && span.start <= merged[n].end + 1 {
        assert merged[n] in merged;
        merged := merged[n := merged[n].(end := Max(merged[n].end, span.end))];
        continue;
      }
      merged := merged + [span];
    }
    MergingEnd(sorted, merged);
  }

  function Clipped(spans: seq<Span>, total: nat): (r: seq<Span>)
    ensures forall s :: s in r ==> Proper(s) && s.end <= total
  {
    if spans == [] then []
    else
      var s := spans[0];
      (if s.start <= s.end && s.start <= total then [Span(s.start, Min(s.end, total))] else [])
      + Clipped(spans[1..], total)
  }

  lemma {:induction false} ClippedCovers(spans: seq<Span>, total: nat)
    ensures forall l: nat :: Covers(Clipped(spans, total), l) <==> Covers(spans, l) && l <= total
  {
    if spans != [] {
      var s, rest := spans[0], spans[1..];
      ClippedCovers(rest, total);
      var head := if s.start <= s.end && s.start <= total then [Span(s.start, Min(s.end, total))] else [];
      assert spans == [s] + rest;
      forall l: nat ensures Covers(Clipped(spans, total), l) <==> Covers(spans, l) && l <= total {
        CoversJoin([s], rest, l);
        CoversJoin(head, Clipped(rest, total), l);
        CoversOne(s, l);
        if head != [] { CoversOne(head[0], l); }
      }
    }
  }

  // ----- segments -----

  datatype Segment = Kept(start: nat, end: nat, text: seq<string>) | Elided(start: nat, end: nat)

  function LineAt(source: seq<string>, l: nat): string { if 1 <= l <= |source| then source[l - 1] else "" }

  function Slice(source: seq<string>, start: nat, end: nat): (r: seq<string>)
    requires start <= end + 1
    ensures |r| == end + 1 - start
  {
    seq(end + 1 - start, i requires 0 <= i < end + 1 - start => LineAt(source, start + i))
  }

  /** A segment of lines that are all elided, or all kept with their text. */
  predicate Shows(seg: Segment, source: seq<string>, elided: set<nat>) {
    && 1 <= seg.start <= seg.end
    && (forall l: nat :: seg.start <= l <= seg.end ==> (l in elided) == seg.Elided?)
    && (seg.Kept? ==> seg.text == Slice(source, seg.start, seg.end))
  }

  /** Segments one after the other from line 1 to `upTo`, kept and elided in turn. */
  predicate Partition(segs: seq<Segment>, source: seq<string>, elided: set<nat>, upTo: nat) {
    && (forall seg :: seg in segs ==> Shows(seg, source, elided))
    && (segs == [] <==> upTo == 0)
    && (segs != [] ==> segs[0].start == 1 && segs[|segs| - 1].end == upTo)
    && (forall i :: 0 <= i < |segs| - 1 ==>
          segs[i + 1].start == segs[i].end + 1 && segs[i].Elided? != segs[i + 1].Elided?)
  }

  method ElidedLines(spans: seq<Span>) returns (lines: set<nat>)
    ensures forall l: nat :: l in lines <==> Covers(spans, l)
  {
    hide Covers;
    lines := {};
    ghost var done: seq<Span> := [];
    NoneCovered();
    for i := 0 to |spans|
      invariant done == spans[..i] && forall l: nat :: l in lines <==> Covers(done, l)
    {
      ghost var before, was := lines, done;
      done := done + [spans[i]];
      var l := spans[i].start;
      while l <= spans[i].end
        invariant spans[i].start <= l && (l <= spans[i].end + 1 || l == spans[i].start)
        invariant forall x: nat :: x in lines <==> x in before || spans[i].start <= x < l
        decreases spans[i].end + 1 - l
      {
        lines := lines + {l};
        l := l + 1;
      }
      forall x: nat ensures Covers(done, x) <==> Covers(was, x) || HasLine(spans[i], x) {
        CoversJoin(was, [spans[i]], x);
        CoversOne(spans[i], x);
      }
    }
    assert done == spans;
  }

  lemma {:induction false} NoneCovered()
    ensures forall l: nat :: !Covers([], l)
  {
  }

  function SegmentOf(elided: bool, start: nat, end: nat, text: seq<string>): Segment {
    if elided then Elided(start, end) else Kept(start, end, text)
  }

  lemma {:induction false} PartitionMore(segs: seq<Segment>, seg: Segment, source: seq<string>, elided: set<nat>,
    upTo: nat)
    requires Partition(segs, source, elided, upTo) && Shows(seg, source, elided) && seg.start == upTo + 1
    requires segs != [] ==> segs[|segs| - 1].Elided? != seg.Elided?
    ensures Partition(segs + [seg], source, elided, seg.end)
  {
    hide Shows;
    var all := segs + [seg];
    forall i | 0 <= i < |all| - 1 ensures all[i + 1].start == all[i].end + 1 && all[i].Elided? != all[i + 1].Elided? {
      if i + 1 < |segs| { assert all[i] == segs[i] && all[i + 1] == segs[i + 1]; }
    }
    assert seg.start <= seg.end by { ShowsSome(seg, source, elided); }
  }

  lemma {:induction false} ShowsSome(seg: Segment, source: seq<string>, elided: set<nat>)
    requires Shows(seg, source, elided)
    ensures seg.start <= seg.end
  {
  }

  /** The lines that some span covers. */
  ghost function Hidden(spans: seq<Span>): (lines: set<nat>)
    ensures forall l: nat :: l in lines <==> Covers(spans, l)
  {
    var lines := set s, l | s in spans && l in Cover(s) :: l;
    assert forall s, l: nat :: l in Cover(s) <==> HasLine(s, l);
    lines
  }

  /** The loop over all lines, starting a new segment wherever the kind changes. */
  method BuildSegments(source: seq<string>, total: nat, spans: seq<Span>) returns (segments: seq<Segment>)
    ensures Partition(segments, source, Hidden(spans), total)
  {
    hide Covers, Partition;
    ghost var elided := Hidden(spans);
    var elidedLines := ElidedLines(spans);
    assert elidedLines == elided;
    segments := [];
    NoPartition(source, elided);
    if total == 0 { return; }
    var currentKind: Option<bool> := None;
    var currentStart := 1;
    var currentLines: seq<string> := [];
    var line := 1;
    while line <= total
      invariant 1 <= currentStart <= line <= total + 1
      invariant currentKind.None? <==> line == 1
      invariant Partition(segments, source, elided, currentStart - 1)
      invariant line > 1 ==> currentStart < line
      invariant segments != [] ==> currentKind.Some? && segments[|segments| - 1].Elided? != currentKind.value
      invariant forall l: nat :: currentStart <= l < line ==> (l in elided) == (currentKind == Some(true))
      invariant currentLines == if currentKind == Some(false) then Slice(source, currentStart, line - 1) else []
    {
      var isElided := line in elidedLines;
      if currentKind.Some? && currentKind.value != isElided {
        var seg := SegmentOf(currentKind.value, currentStart, line - 1, currentLines);
        PartitionMore(segments, seg, source, elided, currentStart - 1);
        segments := segments + [seg];
        currentStart := line;
        currentLines := [];
      }
      currentKind := Some(isElided);
      if !isElided {
        currentLines := currentLines + [LineAt(source, line)];
      }
      line := line + 1;
    }
    var seg := SegmentOf(currentKind.value, currentStart, total, currentLines);
    PartitionMore(segments, seg, source, elided, currentStart - 1);
    segments := segments + [seg];
  }

  lemma {:induction false} NoPartition(source: seq<string>, elided: set<nat>)
    ensures Partition([], source, elided, 0)
  {
  }

  /** The text of all kept segments, in order. */
  function KeptText(segs: seq<Segment>): seq<string> {
    if segs == [] then []
    else KeptText(segs[..|segs| - 1]) + (if segs[|segs| - 1].Kept? then segs[|segs| - 1].text else [])
  }

  /** The source without its elided lines. */
  function Remaining(source: seq<string>, elided: set<nat>, upTo: nat): seq<string> {
    if upTo == 0 then []
    else Remaining(source, elided, upTo - 1) + (if upTo in elided then [] else [LineAt(source, upTo)])
  }

  lemma {:induction false} RemainingRange(source: seq<string>, elided: set<nat>, start: nat, end: nat, kept: bool)
    requires 1 <= start <= end + 1 && forall l: nat :: start <= l <= end ==> (l !in elided) == kept
    ensures Remaining(source, elided, end)
         == Remaining(source, elided, start - 1) + (if kept then Slice(source, start, end) else [])
    decreases end
  {
    if start <= end {
      RemainingRange(source, elided, start, end - 1, kept);
      if kept {
        assert Slice(source, start, end) == Slice(source, start, end - 1) + [LineAt(source, end)];
      }
    }
  }

  /** The kept texts, put together, are the remaining source lines: nothing lost, doubled or moved. */
  lemma {:induction false} KeptIsRemaining(segs: seq<Segment>, source: seq<string>, elided: set<nat>, total: nat)
    requires Partition(segs, source, elided, total)
    ensures KeptText(segs) == Remaining(source, elided, total)
    decreases |segs|
  {
    hide Slice, Shows, Partition;
    if segs != [] {
      var n := |segs| - 1;
      PartitionFront(segs, source, elided, total);
      KeptIsRemaining(segs[..n], source, elided, segs[n].start - 1);
      RemainingRange(source, elided, segs[n].start, segs[n].end, segs[n].Kept?);
    } else {
      NoUpTo(source, elided, total);
    }
  }

  lemma {:induction false} NoUpTo(source: seq<string>, elided: set<nat>, total: nat)
    requires Partition([], source, elided, total)
    ensures total == 0
  {
  }

  lemma {:induction false} PartitionFront(segs: seq<Segment>, source: seq<string>, elided: set<nat>, upTo: nat)
    requires Partition(segs, source, elided, upTo) && segs != []
    ensures var n := |segs| - 1; var last := segs[n];
      && 1 <= last.start <= last.end == upTo && Partition(segs[..n], source, elided, last.start - 1)
      && (forall l: nat :: last.start <= l <= last.end ==> (l !in elided) == last.Kept?)
      && (last.Kept? ==> last.text == Slice(source, last.start, last.end))
  {
    hide Slice;
    var n := |segs| - 1;
    var front, last := segs[..n], segs[n];
    assert Shows(last, source, elided) by { assert last in segs; }
    assert forall seg :: seg in front ==> seg in segs;
    if n > 0 {
      assert segs[n - 1] in segs && segs[n - 1 + 1].start == segs[n - 1].end + 1;
      assert Shows(segs[n - 1], source, elided);
    }
    forall i | 0 <= i < n - 1
      ensures front[i + 1].start == front[i].end + 1 && front[i].Elided? != front[i + 1].Elided?
    {
      assert segs[i + 1].start == segs[i].end + 1;
    }
  }

  lemma {:induction false} RemainingSize(source: seq<string>, elided: set<nat>, upTo: nat)
    ensures |Remaining(source, elided, upTo)| == |UpTo(upTo + 1) - {0} - elided|
  {
    hide UpTo, LineAt;
    if upTo == 0 {
      assert UpTo(1) - {0} - elided == {};
    } else {
      RemainingSize(source, elided, upTo - 1);
      OneMoreLine(elided, upTo);
    }
  }

  lemma {:induction false} OneMoreLine(elided: set<nat>, upTo: nat)
    requires upTo > 0
    ensures |UpTo(upTo + 1) - {0} - elided| == |UpTo(upTo) - {0} - elided| + (if upTo in elided then 0 else 1)
  {
    hide UpTo;
    var before, now := UpTo(upTo) - {0} - elided, UpTo(upTo + 1) - {0} - elided;
    assert now == if upTo in elided then before else before + {upTo};
    assert upTo !in before;
  }

  /** The lines that are not elided, by their numbers from 1 on. */
  function Unelided(source: seq<string>, elided: set<nat>): seq<string> {
    if source == [] then []
    else
      var n := |source| - 1;
      Unelided(source[..n], elided) + if n + 1 in elided then [] else [source[n]]
  }

  lemma {:induction false} RemainingIsUnelided(source: seq<string>, elided: set<nat>, k: nat)
    requires k <= |source|
    ensures Remaining(source, elided, k) == Unelided(source[..k], elided)
  {
    if k > 0 {
      RemainingIsUnelided(source, elided, k - 1);
      assert source[..k][..k - 1] == source[..k - 1];
    }
  }

  // ----- the whole summary -----

  const DEFAULT_MIN_BODY_LINES := 4
  const DEFAULT_MIN_COMMENT_LINES := 6

  function OrElse(x: Option<nat>, default: nat): nat { if x.Some? then x.value else default }

  function LimitsOf(minBody: Option<nat>, minComment: Option<nat>): Limits {
    Limits(Max(OrElse(minBody, DEFAULT_MIN_BODY_LINES), 2), Max(OrElse(minComment, DEFAULT_MIN_COMMENT_LINES), 4))
  }

  /** The folded spans in some order, as a hash set gives them. */
  method SpansOf(nodes: seq<SpanNode>, folded: set<nat>) returns (spans: seq<Span>)
    requires forall i :: i in folded ==> i < |nodes|
    ensures forall l: nat :: Covers(spans, l) <==> l in Covered(nodes, folded)
  {
    spans := [];
    var rest := folded;
    while rest != {}
      invariant rest <= folded
      invariant forall l: nat :: Covers(spans, l) <==> l in Covered(nodes, folded - rest)
      decreases |rest|
    {
      var i :| i in rest;
      ghost var done := folded - rest;
      ghost var before := spans;
      rest := rest - {i};
      spans := spans + [nodes[i].span];
      assert folded - rest == done + {i};
      forall l: nat ensures Covers(spans, l) <==> l in Covered(nodes, done + {i}) {
        CoversJoin(before, [nodes[i].span], l);
        CoversOne(nodes[i].span, l);
        CoveredMore(nodes, done, i, l);
      }
    }
    assert folded - rest == folded;
  }

  lemma {:induction false} CoveredMore(nodes: seq<SpanNode>, ids: set<nat>, i: nat, l: nat)
    requires i < |nodes| && forall j :: j in ids ==> j < |nodes|
    ensures l in Covered(nodes, ids + {i}) <==> l in Covered(nodes, ids) || HasLine(nodes[i].span, l)
  {
    if HasLine(nodes[i].span, l) {
      assert i in ids + {i} && l in Cover(nodes[i].span);
    }
    if l in Covered(nodes, ids) {
      var j :| j in ids && l in Cover(nodes[j].span);
      assert j in ids + {i};
    }
  }

  /**
   Summarize a parsed source. The segments partition the file and elide exactly the lines of the spans left
   folded, none of which could be unfolded if the target is missed. If the tree is well placed and its elided
   runs are clear, as many lines are kept as the unfolding counted visible.
   */
  method SummarizeCode(root: Node, source: seq<string>, minBody: Option<nat>, minComment: Option<nat>,
    until: Option<nat>, unfoldLimit: Option<nat>)
    returns (segments: seq<Segment>, visible: nat, ghost elided: set<nat>,
      ghost nodes: seq<SpanNode>, ghost roots: seq<nat>, ghost folded: set<nat>)
    ensures Partition(segments, source, elided, |source|) && KeptText(segments) == Unelided(source, elided)
    ensures forall i :: i in folded ==> i < |nodes|
    ensures forall l: nat :: 1 <= l ==> (l in elided <==> l in Covered(nodes, folded) && l <= |source|)
    ensures var body := if minBody.Some? then minBody.value else 4;
      var comment := if minComment.Some? then minComment.value else 6;
      var m := Limits(Max(body, 2), Max(comment, 4));
      && Step([], [], nodes, roots, None, roots, Elisions(root, m))
      && (WellPlaced(root) && root.end <= |source| + 1 && Clear(root, m) ==> |KeptText(segments)| == visible)
    ensures var target := if until.Some? then until.value else 0;
      var limit := if unfoldLimit.Some? then unfoldLimit.value else target * 2;
      && Refs(nodes, roots)
      && (exists u ::
            BreadthFirst(nodes, roots, Minus(|source|, SumLines(nodes, roots)), target, limit, u, folded, visible))
      && (visible >= target || forall i :: i in folded ==> Stuck(nodes, i, visible, limit))
  {
    hide Partition, Covers, WellPlaced, Clear, Covered, Sound, Linked, Step, Canonical, Remaining, KeptText, Exact,
      BreadthFirst, Unelided;
    var total := |source|;
    var m := LimitsOf(minBody, minComment);
    var unfoldUntil := OrElse(until, 0);
    var limit := OrElse(unfoldLimit, unfoldUntil * 2);
    var forest := new ElidableForest();
    NothingLinked();
    ghost var tops := CollectElidableTree(root, None, m, forest);
    StepLinked([], [], forest.nodes, forest.roots, None, tops, Elisions(root, m));
    TopsAreRoots(forest.nodes, forest.roots, tops, Elisions(root, m));
    var foldedNow;
    ghost var u;
    foldedNow, visible, u := forest.UnfoldSpans(total, unfoldUntil, limit);
    nodes, roots, folded := forest.nodes, forest.roots, foldedNow;
    var spans := SpansOf(forest.nodes, foldedNow);
    var normal := NormalizeSpans(spans, total);
    elided := Hidden(normal);
    segments := BuildSegments(source, total, normal);
    KeptIsRemaining(segments, source, elided, total);
    RemainingIsUnelided(source, elided, total);
    assert source[..total] == source;
    if WellPlaced(root) && root.end <= total + 1 && Clear(root, m) {
      ForestIsSound(root, m, total, forest.nodes, forest.roots);
      VisibleIsKept(source, elided, nodes, roots, folded, visible, normal);
    }
  }

  lemma {:induction false} NothingLinked()
    ensures Linked([], [])
  {
  }

  lemma {:induction false} TopsAreRoots(nodes: seq<SpanNode>, roots: seq<nat>, tops: seq<nat>, es: seq<Elision>)
    requires Step([], [], nodes, roots, None, tops, es)
    ensures roots == tops
  {
    assert [] + tops == tops;
  }

  lemma {:induction false} VisibleIsKept(source: seq<string>, elided: set<nat>, nodes: seq<SpanNode>, roots: seq<nat>,
    folded: set<nat>, visible: nat, spans: seq<Span>)
    requires Sound(nodes, roots, |source|) && Exact(nodes, roots, |source|, folded, visible)
    requires forall l: nat :: l in elided <==> Covers(spans, l)
    requires forall l: nat :: 1 <= l ==> (Covers(spans, l) <==> l in Covered(nodes, folded) && l <= |source|)
    ensures |Remaining(source, elided, |source|)| == visible
  {
    hide Covers, UpTo, Covered, Sound, Remaining;
    var total := |source|;
    RemainingSize(source, elided, total);
    var all, covered := UpTo(total + 1) - {0}, Covered(nodes, folded);
    forall l | l in covered ensures l in all {
      assert l in Covered(nodes, ToSet(roots));
      RootLines(nodes, roots, total, l);
    }
    assert all - elided == all - covered;
    assert all == covered + (all - covered);
    assert |all| == total;
  }

  lemma {:induction false} RootLines(nodes: seq<SpanNode>, roots: seq<nat>, total: nat, l: nat)
    requires Sound(nodes, roots, total) && l in Covered(nodes, ToSet(roots))
    ensures 1 <= l <= total
  {
    var r :| r in ToSet(roots) && l in Cover(nodes[r].span);
  }
}
