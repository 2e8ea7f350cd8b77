/**
 Which block boundaries lie just outside a window of visible lines.
 */
module BlockBoundaries {
  import opened Basics
  import opened StableSorting
  import opened LineSpans

  /** A syntax node with its first line and the line of its last content. */
  datatype Node = Node(named: bool, start: nat, contentEnd: nat, children: seq<Node>)

  // ----- ranges -----

  predicate ValidRange(s: Span) { s.start > 0 && s.end >= s.start }

  function ValidRanges(ranges: seq<Span>): (r: seq<Span>)
    ensures forall s :: s in r ==> Proper(s)
  {
    if ranges == [] then []
    else (if ValidRange(ranges[0]) then [ranges[0]] else []) + ValidRanges(ranges[1..])
  }

  /** A line of the window: a range that does not begin before the first line holds it. */
  predicate InWindow(ranges: seq<Span>, l: nat) { exists s :: s in ranges && s.start > 0 && HasLine(s, l) }

  lemma {:induction false} ValidCovers(ranges: seq<Span>)
    ensures forall l: nat :: Covers(ValidRanges(ranges), l) <==> InWindow(ranges, l)
  {
    if ranges != [] {
      var s, rest := ranges[0], ranges[1..];
      ValidCovers(rest);
      assert ranges == [s] + rest;
      assert forall x :: x in ranges <==> x == s || x in rest;
      var head := if ValidRange(s) then [s] else [];
      forall l: nat ensures Covers(ValidRanges(ranges), l) <==> InWindow(ranges, l) {
        CoversJoin(head, ValidRanges(rest), l);
        if head != [] { CoversOne(s, l); }
      }
    }
  }

  /** Sorted, separated, and covering the same lines. */
  method NormalizeRanges(ranges: seq<Span>) returns (merged: seq<Span>)
    ensures Canonical(merged) && forall l: nat :: Covers(merged, l) <==> InWindow(ranges, l)
  {
    var valid := ValidRanges(ranges);
    ValidCovers(ranges);
    var sorted := StableSort(valid, SpanAfter);
    SortedSpans(valid);
    merged := [];
    MergingStart(sorted);
    for i := 0 to |sorted|
      invariant Merging(sorted, i, merged)
    {
      hide Merging, Covers, Sorted, StableSort, Canonical;
      MergingStep(sorted, i, merged);
      var range := sorted[i];
      var n := |merged| - 1;
      if merged != [] && range.start <= merged[n].end + 1 {
        merged := merged[n := merged[n].(end := Max(merged[n].end, range.end))];
        continue;
      }
      merged := merged + [range];
    }
    MergingEnd(sorted, merged);
  }

  /** Halve the list until the range that could hold the line is found. */
  predicate Search(merged: seq<Span>, line: nat, low: nat, high: nat)
    requires low <= high <= |merged|
    decreases high - low
  {
    if low == high then false
    else
      var mid := low + (high - low) / 2;
      if line < merged[mid].start then Search(merged, line, low, mid)
      else if line > merged[mid].end then Search(merged, line, mid + 1, high)
      else true
  }

  predicate IsVisible(merged: seq<Span>, line: nat) { Search(merged, line, 0, |merged|) }

  predicate InPart(merged: seq<Span>, line: nat, low: nat, high: nat)
    requires low <= high <= |merged|
  {
    exists i :: low <= i < high && HasLine(merged[i], line)
  }

  lemma {:induction false} SearchFinds(merged: seq<Span>, line: nat, low: nat, high: nat)
    requires Canonical(merged) && low <= high <= |merged|
    ensures Search(merged, line, low, high) <==> InPart(merged, line, low, high)
    decreases high - low
  {
    hide InPart, Canonical;
    if low == high {
      NoPart(merged, line, low);
    } else {
      var mid := low + (high - low) / 2;
      SearchFinds(merged, line, low, mid);
      SearchFinds(merged, line, mid + 1, high);
      Halves(merged, line, low, mid, high);
    }
  }

  lemma {:induction false} NoPart(merged: seq<Span>, line: nat, low: nat)
    requires low <= |merged|
    ensures !InPart(merged, line, low, low)
  {
  }

  lemma {:induction false} Halves(merged: seq<Span>, line: nat, low: nat, mid: nat, high: nat)
    requires Canonical(merged) && low <= mid < high <= |merged|
    ensures line < merged[mid].start ==> (InPart(merged, line, low, high) <==> InPart(merged, line, low, mid))
    ensures line > merged[mid].end ==> (InPart(merged, line, low, high) <==> InPart(merged, line, mid + 1, high))
    ensures merged[mid].start <= line <= merged[mid].end ==> InPart(merged, line, low, high)
  {
    if i :| low <= i < high && HasLine(merged[i], line) {
      assert i < mid ==> merged[i].end + 1 < merged[mid].start;
      assert i > mid ==> merged[mid].end + 1 < merged[i].start;
    }
    if merged[mid].start <= line <= merged[mid].end { assert HasLine(merged[mid], line); }
  }

  /** The binary search over the merged ranges agrees with membership in the raw ones. */
  lemma {:induction false} VisibleIsInWindow(ranges: seq<Span>, merged: seq<Span>, line: nat)
    requires Canonical(merged) && forall l: nat :: Covers(merged, l) <==> InWindow(ranges, l)
    ensures IsVisible(merged, line) <==> InWindow(ranges, line)
  {
    SearchFinds(merged, line, 0, |merged|);
    if Covers(merged, line) {
      var s :| s in merged && HasLine(s, line);
      var i :| 0 <= i < |merged| && merged[i] == s;
      assert HasLine(merged[i], line);
    }
    if i :| 0 <= i < |merged| && HasLine(merged[i], line) {
      assert merged[i] in merged;
    }
  }

  // ----- the walk -----

  /** A node somewhere below another. */
  predicate Below(d: Node, n: Node) {
    exists i :: 0 <= i < |n.children| && (d == n.children[i] || Below(d, n.children[i]))
  }

  /** An end of a multi-line named node that is out of sight while the other end is in sight. */
  predicate Dangling(d: Node, merged: seq<Span>, l: nat) {
    d.named && d.contentEnd > d.start
    && ((l == d.contentEnd && IsVisible(merged, d.start) && !IsVisible(merged, d.contentEnd))
      || (l == d.start && IsVisible(merged, d.contentEnd) && !IsVisible(merged, d.start)))
  }

  /** Walk the tree and add to the set; the root itself never counts. */
  method CollectBoundaries(n: Node, isRoot: bool, merged: seq<Span>, out: set<nat>) returns (r: set<nat>)
    ensures forall l: nat :: l in r <==> l in out || (!isRoot && Dangling(n, merged, l)) || DanglingBelow(n, merged, l)
    decreases n
  {
    hide IsVisible;
    r := out;
    if n.named && !isRoot && n.contentEnd > n.start {
      var startVisible := IsVisible(merged, n.start);
      var endVisible := IsVisible(merged, n.contentEnd);
      if startVisible && !endVisible {
        r := r + {n.contentEnd};
      } else if endVisible && !startVisible {
        r := r + {n.start};
      }
    }
    ghost var start := r;
    for i := 0 to |n.children|
      invariant forall l: nat :: l in r <==> l in start || DanglingFirst(n, merged, l, i)
    {
      r := CollectBoundaries(n.children[i], false, merged, r);
    }
  }

  ghost predicate DanglingFirst(n: Node, merged: seq<Span>, l: nat, upTo: nat)
    requires upTo <= |n.children|
  {
    exists i :: 0 <= i < upTo && (Dangling(n.children[i], merged, l) || DanglingBelow(n.children[i], merged, l))
  }

  /** Some node below `n` has a dangling end at `l`. */
  ghost predicate DanglingBelow(n: Node, merged: seq<Span>, l: nat) {
    exists i :: 0 <= i < |n.children| && (Dangling(n.children[i], merged, l) || DanglingBelow(n.children[i], merged, l))
  }

  lemma {:induction false} DanglingMeans(n: Node, merged: seq<Span>, l: nat)
    ensures DanglingBelow(n, merged, l) <==> exists d :: Below(d, n) && Dangling(d, merged, l)
    decreases n
  {
    hide Dangling;
    if DanglingBelow(n, merged, l) {
      var i :| 0 <= i < |n.children| && (Dangling(n.children[i], merged, l) || DanglingBelow(n.children[i], merged, l));
      if Dangling(n.children[i], merged, l) {
        assert Below(n.children[i], n);
      } else {
        DanglingMeans(n.children[i], merged, l);
        var d :| Below(d, n.children[i]) && Dangling(d, merged, l);
        assert Below(d, n);
      }
    }
    if d :| Below(d, n) && Dangling(d, merged, l) {
      var i :| 0 <= i < |n.children| && (d == n.children[i] || Below(d, n.children[i]));
      if d != n.children[i] {
        DanglingMeans(n.children[i], merged, l);
      }
    }
  }

  // ----- the query -----

  method Least(lines: set<nat>) returns (least: nat)
    requires lines != {}
    ensures least in lines && forall x :: x in lines ==> least <= x
  {
    least :| least in lines;
    var others := lines - {least};
    while others != {}
      invariant least in lines && others <= lines
      invariant forall x :: x in lines && x !in others ==> least <= x
      decreases |others|
    {
      var x :| x in others;
      others := others - {x};
      if x < least { least := x; }
    }
  }

  /** The lines of a set in ascending order. */
  method Ascending(lines: set<nat>) returns (r: seq<nat>)
    ensures (forall l :: l in r <==> l in lines) && forall i, j :: 0 <= i < j < |r| ==> r[i] < r[j]
  {
    r := [];
    var rest := lines;
    while rest != {}
      invariant rest <= lines && forall l :: l in r <==> l in lines && l !in rest
      invariant forall i, j :: 0 <= i < j < |r| ==> r[i] < r[j]
      invariant forall i, b :: 0 <= i < |r| && b in rest ==> r[i] < b
      decreases |rest|
    {
      var least := Least(rest);
      r := r + [least];
      rest := rest - {least};
    }
  }

  /** An end of a multi-line named node that lies outside the window while the other end lies inside. */
  predicate Straddles(d: Node, ranges: seq<Span>, l: nat) {
    d.named && d.contentEnd > d.start
    && ((l == d.contentEnd && InWindow(ranges, d.start) && !InWindow(ranges, d.contentEnd))
      || (l == d.start && InWindow(ranges, d.contentEnd) && !InWindow(ranges, d.start)))
  }

  /**
   The boundaries of a parsed file, ascending: exactly the far ends of the multi-line named nodes below the root
   that straddle the window. With no valid range there are none.
   */
  method EnclosingBlockBoundaries(root: Node, ranges: seq<Span>) returns (boundaries: seq<nat>)
    ensures forall i, j :: 0 <= i < j < |boundaries| ==> boundaries[i] < boundaries[j]
    ensures forall l: nat :: l in boundaries <==> exists d :: Below(d, root) && Straddles(d, ranges, l)
  {
    var merged := NormalizeRanges(ranges);
    forall d: Node, l: nat ensures Dangling(d, merged, l) <==> Straddles(d, ranges, l) {
      VisibleIsInWindow(ranges, merged, d.start);
      VisibleIsInWindow(ranges, merged, d.contentEnd);
    }
    hide InWindow, IsVisible, Dangling, DanglingBelow, Below, Straddles;
    if merged == [] {
      NoWindow(ranges, merged);
      return [];
    }
    var lines := CollectBoundaries(root, true, merged, {});
    forall l: nat ensures DanglingBelow(root, merged, l) <==> exists d :: Below(d, root) && Dangling(d, merged, l) {
      DanglingMeans(root, merged, l);
    }
    boundaries := Ascending(lines);
  }

  lemma {:induction false} NoWindow(ranges: seq<Span>, merged: seq<Span>)
    requires merged == [] && forall l: nat :: Covers(merged, l) <==> InWindow(ranges, l)
    ensures forall d, l: nat :: !Straddles(d, ranges, l)
  {
    forall l: nat ensures !InWindow(ranges, l) {
      assert !Covers([], l);
    }
  }

  // ----- the block that begins on a line -----

  /** A node on the way from the leaf up to the root, which comes last. */
  datatype Ancestor = Ancestor(start: nat, contentEnd: nat)

  /** Climb from the leaf while the parent is not the root and begins on the same line. */
  method Climb(path: seq<Ancestor>, line: nat) returns (k: nat)
    requires path != [] && path[0].start == line
    ensures k < |path| && path[k].start == line && (k > 0 ==> k < |path| - 1)
    ensures forall i :: 0 <= i <= k ==> path[i].start == line
    ensures k + 1 < |path| - 1 ==> path[k + 1].start != line
  {
    k := 0;
    while k + 1 < |path|
      invariant k < |path| && (k > 0 ==> k < |path| - 1) && forall i :: 0 <= i <= k ==> path[i].start == line
    {
      if k + 1 == |path| - 1 { break; }
      if path[k + 1].start != line { break; }
      k := k + 1;
    }
  }

  /** Ancestors begin no later than what they contain. */
  predicate Outward(path: seq<Ancestor>) { forall i, j :: 0 <= i < j < |path| ==> path[j].start <= path[i].start }

  /**
   The climb ends at the outermost node below the root that begins on the line. Only when the leaf is the root
   itself, which the search for the smallest named node can return, is the whole file the answer.
   */
  lemma {:induction false} ClimbIsOutermost(path: seq<Ancestor>, line: nat, k: nat)
    requires path != [] && path[0].start == line && Outward(path)
    requires k < |path| && path[k].start == line && (k > 0 ==> k < |path| - 1)
    requires k + 1 < |path| - 1 ==> path[k + 1].start != line
    ensures forall i :: k < i < |path| - 1 ==> path[i].start != line
    ensures k == |path| - 1 <==> |path| == 1
  {
    forall i | k < i < |path| - 1 ensures path[i].start != line {
      assert path[k + 1].start <= path[k].start && (i > k + 1 ==> path[i].start <= path[k + 1].start);
    }
  }

  /** The block on a line, or none if the smallest node there began earlier or holds an error. */
  method BlockRangeAt(path: seq<Ancestor>, line: nat, broken: seq<bool>) returns (range: Option<Span>)
    requires path != [] && |broken| == |path| && Outward(path)
    ensures path[0].start != line ==> range.None?
    ensures path[0].start == line && |path| > 1 ==>
      exists k :: 0 <= k < |path| - 1 && path[k].start == line
        && (forall i :: k < i < |path| - 1 ==> path[i].start != line)
        && range == if broken[k] then None else Some(Span(path[k].start, path[k].contentEnd))
    ensures path[0].start == line && |path| == 1 ==>
      range == if broken[0] then None else Some(Span(line, path[0].contentEnd))
  {
    if path[0].start != line { return None; }
    var k := Climb(path, line);
    ClimbIsOutermost(path, line, k);
    range := if broken[k] then None else Some(Span(path[k].start, path[k].contentEnd));
  }
}
