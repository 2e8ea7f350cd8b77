/**
 Replaying file reads under another configuration: which lines they deliver and what they cost.
 */
module ReadCoverage {
  import opened Basics
  import opened StableSorting
  import opened LineSpans

  // ----- coverage -----

  function AbsorbAll(xs: seq<Span>): seq<Span> {
    if xs == [] then [] else Absorb(AbsorbAll(xs[..|xs| - 1]), xs[|xs| - 1])
  }

  function Merged(xs: seq<Span>): seq<Span> { AbsorbAll(StableSort(xs, SpanAfter)) }

  predicate AllProper(xs: seq<Span>) { forall s :: s in xs ==> Proper(s) }

  lemma {:induction false} AbsorbMerges(xs: seq<Span>, i: nat)
    requires i <= |xs| && AllProper(xs) && Sorted(xs, SpanAfter)
    ensures Merging(xs, i, AbsorbAll(xs[..i]))
  {
    hide Merging;
    if i == 0 {
      MergingStart(xs);
    } else {
      AbsorbMerges(xs, i - 1);
      MergingStep(xs, i - 1, AbsorbAll(xs[..i - 1]));
      assert xs[..i][..i - 1] == xs[..i - 1] && xs[..i][i - 1] == xs[i - 1];
    }
  }

  /** Merging gives the one canonical list of the same lines. */
  lemma {:induction false} MergedMeans(xs: seq<Span>)
    requires AllProper(xs)
    ensures Canonical(Merged(xs)) && forall l: nat :: Covers(Merged(xs), l) <==> Covers(xs, l)
  {
    hide Covers, Canonical, Absorb, StableSort, Merging;
    var sorted := StableSort(xs, SpanAfter);
    SortedSpans(xs);
    AbsorbMerges(sorted, |sorted|);
    assert sorted[..|sorted|] == sorted;
    MergingEnd(sorted, Merged(xs));
  }

  method Merge(ivs: seq<Span>) returns (out: seq<Span>)
    ensures out == Merged(ivs)
  {
    hide StableSort;
    var sorted := StableSort(ivs, SpanAfter);
    if |sorted| == 0 { return []; }
    out := [sorted[0]];
    assert sorted[..1][..0] == [] && AbsorbAll([]) == [];
    for i := 1 to |sorted|
      invariant out == AbsorbAll(sorted[..i]) && out != []
    {
      assert sorted[..i + 1][..i] == sorted[..i];
      var n := |out| - 1;
      if sorted[i].start <= out[n].end + 1 {
        out := out[n := Span(out[n].start, Max(out[n].end, sorted[i].end))];
      } else {
        out := out + [sorted[i]];
      }
    }
    assert sorted[..|sorted|] == sorted;
  }

  predicate Contained(target: Span, ivs: seq<Span>) {
    exists s :: s in ivs && s.start <= target.start && s.end >= target.end
  }

  method IsContained(target: Span, ivs: seq<Span>) returns (r: bool)
    ensures r == Contained(target, ivs)
  {
    for i := 0 to |ivs|
      invariant !Contained(target, ivs[..i])
    {
      if ivs[i].start <= target.start && ivs[i].end >= target.end {
        assert ivs[i] in ivs;
        return true;
      }
      assert forall s :: s in ivs[..i + 1] <==> s in ivs[..i] || s == ivs[i];
    }
    assert ivs[..|ivs|] == ivs;
    return false;
  }

  /** In a canonical list, one span holds the target exactly when every line of it is covered. */
  lemma {:induction false} ContainedMeans(target: Span, ivs: seq<Span>)
    requires Canonical(ivs) && Proper(target)
    ensures Contained(target, ivs) <==> forall l: nat :: HasLine(target, l) ==> Covers(ivs, l)
  {
    if Contained(target, ivs) {
      var s :| s in ivs && s.start <= target.start && s.end >= target.end;
      forall l: nat | HasLine(target, l) ensures Covers(ivs, l) { assert HasLine(s, l); }
    }
    if forall l: nat :: HasLine(target, l) ==> Covers(ivs, l) {
      assert HasLine(target, target.start);
      var s :| s in ivs && HasLine(s, target.start);
      BehindSpan(ivs, s);
      assert !HasLine(target, s.end + 1);
    }
  }

  lemma {:induction false} BehindSpan(ivs: seq<Span>, s: Span)
    requires Canonical(ivs) && s in ivs
    ensures !Covers(ivs, s.end + 1)
  {
    var i :| 0 <= i < |ivs| && ivs[i] == s;
    forall t | t in ivs ensures !HasLine(t, s.end + 1) {
      var j :| 0 <= j < |ivs| && ivs[j] == t;
      assert i < j ==> ivs[i].end + 1 < ivs[j].start;
      assert j < i ==> ivs[j].end + 1 < ivs[i].start;
    }
  }

  // ----- subtraction -----

  function Cut(piece: Span, iv: Span): seq<Span> {
    if iv.end < piece.start || iv.start > piece.end then [piece]
    else
      (if iv.start > piece.start then [Span(piece.start, iv.start - 1)] else [])
      + (if iv.end < piece.end then [Span(iv.end + 1, piece.end)] else [])
  }

  function CutAll(pieces: seq<Span>, iv: Span): seq<Span> {
    if pieces == [] then [] else CutAll(pieces[..|pieces| - 1], iv) + Cut(pieces[|pieces| - 1], iv)
  }

  lemma {:induction false} CutMeans(piece: Span, iv: Span)
    requires Proper(piece) && Proper(iv)
    ensures Canonical(Cut(piece, iv))
      && forall s :: s in Cut(piece, iv) ==> piece.start <= s.start && s.end <= piece.end
    ensures forall l: nat :: Covers(Cut(piece, iv), l) <==> HasLine(piece, l) && !HasLine(iv, l)
  {
    var a := if iv.start > piece.start then [Span(piece.start, iv.start - 1)] else [];
    var b := if iv.end < piece.end then [Span(iv.end + 1, piece.end)] else [];
    forall l: nat ensures Covers(Cut(piece, iv), l) <==> HasLine(piece, l) && !HasLine(iv, l) {
      CoversOne(piece, l);
      CoversJoin(a, b, l);
      if a != [] { CoversOne(a[0], l); }
      if b != [] { CoversOne(b[0], l); }
    }
  }

  /** Lists far enough apart make one canonical list. */
  lemma {:induction false} CanonicalJoin(a: seq<Span>, b: seq<Span>, gap: nat)
    requires Canonical(a) && Canonical(b)
    requires (forall s :: s in a ==> s.end + 1 < gap) && forall s :: s in b ==> gap <= s.start
    ensures Canonical(a + b)
  {
    forall i, j | 0 <= i < j < |a + b| ensures (a + b)[i].end + 1 < (a + b)[j].start {
      if i < |a| <= j { assert a[i] in a && b[j - |a|] in b; }
    }
  }

  lemma {:induction false} CutAllMeans(pieces: seq<Span>, iv: Span)
    requires Canonical(pieces) && Proper(iv)
    ensures Canonical(CutAll(pieces, iv))
    ensures pieces != [] ==> forall s :: s in CutAll(pieces, iv) ==> s.end <= pieces[|pieces| - 1].end
    ensures forall l: nat :: Covers(CutAll(pieces, iv), l) <==> Covers(pieces, l) && !HasLine(iv, l)
  {
    hide Cut, Covers, HasLine;
    if pieces == [] {
      NothingCovered();
    } else {
      var n := |pieces| - 1;
      var front, last := pieces[..n], pieces[n];
      CutAllMeans(front, iv);
      CutMeans(last, iv);
      if n > 0 { assert front[n - 1].end + 1 < last.start; }
      assert n == 0 ==> CutAll(front, iv) == [];
      CanonicalJoin(CutAll(front, iv), Cut(last, iv), last.start);
      assert pieces == front + [last];
      forall l: nat ensures Covers(CutAll(pieces, iv), l) <==> Covers(pieces, l) && !HasLine(iv, l) {
        CoversJoin(CutAll(front, iv), Cut(last, iv), l);
        CoversJoin(front, [last], l);
        CoversOne(last, l);
      }
    }
  }

  lemma {:induction false} NothingCovered()
    ensures forall l: nat :: !Covers([], l)
  {
  }

  /** The lines of one span outside all others, as the one canonical list of them. */
  method Subtract(whole: Span, ivs: seq<Span>) returns (out: seq<Span>)
    requires Proper(whole) && AllProper(ivs)
    ensures Canonical(out) && forall l: nat :: Covers(out, l) <==> HasLine(whole, l) && !Covers(ivs, l)
  {
    hide Covers, HasLine, Canonical;
    out := [whole];
    NothingCovered();
    StartWhole(whole);
    for i := 0 to |ivs|
      invariant Canonical(out) && CutsOut(out, whole, ivs, i)
    {
      var iv := ivs[i];
      var rest := CutPieces(out, iv);
      CutAllMeans(out, iv);
      CutsMore(out, rest, whole, ivs, i, i + 1);
      out := rest;
      if |out| == 0 {
        NothingLeft(whole, ivs, i + 1);
        return;
      }
    }
    assert ivs[..|ivs|] == ivs;
    CutsAtEnd(out, whole, ivs);
  }

  ghost predicate CutsOut(out: seq<Span>, whole: Span, ivs: seq<Span>, i: nat)
    requires i <= |ivs|
  {
    forall l: nat :: Covers(out, l) <==> HasLine(whole, l) && !Covers(ivs[..i], l)
  }

  lemma {:induction false} StartWhole(whole: Span)
    requires Proper(whole)
    ensures Canonical([whole]) && forall l: nat :: Covers([whole], l) <==> HasLine(whole, l)
  {
    forall l: nat { CoversOne(whole, l); }
  }

  lemma {:induction false} CutsMore(out: seq<Span>, rest: seq<Span>, whole: Span, ivs: seq<Span>, i: nat, next: nat)
    requires i < |ivs| && next == i + 1 && CutsOut(out, whole, ivs, i)
    requires forall l: nat :: Covers(rest, l) <==> Covers(out, l) && !HasLine(ivs[i], l)
    ensures CutsOut(rest, whole, ivs, next)
  {
    hide Covers, HasLine;
    var done := ivs[..i];
    var more := ivs[..next];
    assert more == done + [ivs[i]];
    forall l: nat ensures Covers(rest, l) <==> HasLine(whole, l) && !Covers(more, l) {
      CoversJoin(done, [ivs[i]], l);
      CoversOne(ivs[i], l);
    }
  }

  lemma {:induction false} CutsAtEnd(out: seq<Span>, whole: Span, ivs: seq<Span>)
    requires CutsOut(out, whole, ivs, |ivs|)
    ensures forall l: nat :: Covers(out, l) <==> HasLine(whole, l) && !Covers(ivs, l)
  {
    assert ivs[..|ivs|] == ivs;
  }

  /** Once nothing is left, the spans not looked at cannot matter. */
  lemma {:induction false} NothingLeft(whole: Span, ivs: seq<Span>, i: nat)
    requires i <= |ivs| && CutsOut([], whole, ivs, i)
    ensures forall l: nat :: Covers([], l) <==> HasLine(whole, l) && !Covers(ivs, l)
  {
    hide Covers, HasLine;
    NothingCovered();
    assert ivs == ivs[..i] + ivs[i..];
    forall l: nat ensures HasLine(whole, l) ==> Covers(ivs, l) {
      CoversJoin(ivs[..i], ivs[i..], l);
    }
  }

  method CutPieces(pieces: seq<Span>, iv: Span) returns (rest: seq<Span>)
    ensures rest == CutAll(pieces, iv)
  {
    rest := [];
    for i := 0 to |pieces|
      invariant rest == CutAll(pieces[..i], iv)
    {
      assert pieces[..i + 1][..i] == pieces[..i];
      var piece := pieces[i];
      if iv.end < piece.start || iv.start > piece.end {
        rest := rest + [piece];
        continue;
      }
      ghost var before := rest;
      if iv.start > piece.start { rest := rest + [Span(piece.start, iv.start - 1)]; }
      if iv.end < piece.end { rest := rest + [Span(iv.end + 1, piece.end)]; }
      assert rest == before + Cut(piece, iv);
    }
    assert pieces[..|pieces|] == pieces;
  }
}
