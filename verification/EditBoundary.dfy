/**
 Where the part of an edit input that parses ends.

 Lines arrive classified: what each pattern of the parser says of them, and how many characters they take.
 */
module EditBoundary {
  import opened Basics

  datatype Format = NewHashline | LegacyHashline | Codex

  datatype Header = Header(format: Format, target: string)

  /** An op on a range of lines: whether it deletes them, has text on its own line, and how many lines it covers. */
  datatype RangeOp = RangeOp(delete: bool, inline: bool, lines: nat)

  datatype Line = Line(
    width: nat, blank: bool, leadingDashes: bool,
    beginPatch: bool, endPatch: bool, header: Option<Header>,
    newBlocked: bool, newInsert: Option<bool>, newRange: Option<RangeOp>,
    legacyBlocked: bool, legacyInsert: bool, legacyReplace: Option<nat>,
    marker: bool, dashes: Option<string>, atAt: bool, plusPlusPlus: bool,
    oldDelete: Option<nat>, oldReplace: Option<RangeOp>, plus: bool, minus: bool, context: bool)

  datatype Section = Section(target: string, ops: nat, payload: nat, deleted: nat)

  /** A line takes at least one character, patch lines and headers do not begin with dashes, nor do blank lines. */
  predicate ValidLine(l: Line) {
    && l.width > 0 && (l.beginPatch || l.endPatch || l.header.Some? ==> !l.leadingDashes)
    && (l.blank ==> l.dashes.None?)
  }

  predicate ValidText(ls: seq<Line>) { forall l :: l in ls ==> ValidLine(l) }

  function Width(ls: seq<Line>): nat {
    if ls == [] then 0 else Width(ls[..|ls| - 1]) + ls[|ls| - 1].width
  }

  function Targets(sections: seq<Section>): (r: seq<string>)
    ensures |r| == |sections| && forall i :: 0 <= i < |sections| ==> r[i] == sections[i].target
  {
    seq(|sections|, i requires 0 <= i < |sections| => sections[i].target)
  }

  /** Count an op in the section that is open. */
  function Bump(sections: seq<Section>, ops: nat, payload: nat, deleted: nat): (r: seq<Section>)
    ensures |r| == |sections| && Targets(r) == Targets(sections)
  {
    if sections == [] then []
    else
      var n := |sections| - 1;
      var s := sections[n];
      sections[n := Section(s.target, s.ops + ops, s.payload + payload, s.deleted + deleted)]
  }

  function Ones(b: bool): nat { if b then 1 else 0 }

  // ----- the current formats -----

  datatype State = State(sections: seq<Section>, format: Format, cut: nat, lineNo: nat,
    needs: bool, allowed: bool, saw: bool, seen: bool, stopped: bool)

  const INITIAL := State([], NewHashline, 0, 0, false, false, false, false, false)

  /** An insert is open that still lacks its payload. */
  predicate Waiting(s: State) { s.needs && !s.saw }

  /** Another line is read, and it has content. */
  function Begun(s: State): State { s.(seen := true, lineNo := s.lineNo + 1) }

  function Step(s: State, l: Line, end: nat): State {
    if s.stopped then s
    else if !s.seen && l.blank then s.(cut := end, lineNo := s.lineNo + 1)
    else
      var t := Begun(s);
      if l.beginPatch || l.endPatch then
        if Waiting(t) then t.(stopped := true) else t.(cut := end, allowed := false)
      else if l.header.Some? then
        if Waiting(t) then t.(stopped := true)
        else
          t.(sections := t.sections + [Section(l.header.value.target, 0, 0, 0)], format := l.header.value.format,
             cut := end, needs := false, allowed := false, saw := false)
      else if t.sections == [] then t.(stopped := true)
      else if t.format.NewHashline? then StepNew(t, l, end)
      else StepLegacy(t, l, end)
  }

  function StepNew(t: State, l: Line, end: nat): State {
    if t.allowed && !l.newBlocked && l.newInsert.None? && l.newRange.None? then
      t.(sections := Bump(t.sections, 0, 1, 0), cut := end)
    else if l.blank then t.(cut := end, allowed := false)
    else if l.newInsert.Some? then
      t.(sections := Bump(t.sections, 1, Ones(l.newInsert.value), 0), cut := end, allowed := true)
    else if l.newRange.Some? then
      var op := l.newRange.value;
      t.(sections := Bump(t.sections, 1, Ones(!op.delete && op.inline), op.lines), cut := end, allowed := !op.delete)
    else t.(stopped := true)
  }

  function StepLegacy(t: State, l: Line, end: nat): State {
    if t.allowed && !l.legacyBlocked then
      t.(sections := Bump(t.sections, 0, 1, 0), cut := end, saw := true, needs := false)
    else if l.blank then
      if Waiting(t) then t.(stopped := true) else t.(cut := end, allowed := false, needs := false, saw := false)
    else if Waiting(t) then t.(stopped := true)
    else if l.legacyInsert then t.(sections := Bump(t.sections, 1, 0, 0), needs := true, allowed := true, saw := false)
    else if l.legacyReplace.Some? then
      t.(sections := Bump(t.sections, 1, 0, l.legacyReplace.value), cut := end, needs := false, allowed := true,
          saw := false)
    else t.(stopped := true)
  }

  function RunMain(ls: seq<Line>): State {
    if ls == [] then INITIAL else Step(RunMain(ls[..|ls| - 1]), ls[|ls| - 1], Width(ls))
  }

  // ----- the oldest format -----

  datatype Diff = Diff(sections: seq<Section>, cut: nat, lineNo: nat, inPayload: bool, stopped: bool)

  const EMPTY_DIFF := Diff([], 0, 0, false, false)

  predicate OpenOps(d: Diff) { d.sections != [] && d.sections[|d.sections| - 1].ops > 0 }

  function StepDiff(d: Diff, l: Line, end: nat, loose: bool): Diff {
    if d.stopped then d else ReadDiff(d.(lineNo := d.lineNo + 1), l, end, loose)
  }

  function ReadDiff(d: Diff, l: Line, end: nat, loose: bool): Diff {
    if loose && l.marker && OpenOps(d) then d.(stopped := true)
    else if l.dashes.Some? then
      if l.dashes.value == "" then d.(stopped := true)
      else d.(sections := d.sections + [Section(l.dashes.value, 0, 0, 0)], cut := end, inPayload := false)
    else if d.sections == [] then
      if l.blank then d.(cut := end) else d.(stopped := true)
    else if l.plusPlusPlus || l.atAt then
      d.(sections := Bump(d.sections, Ones(l.atAt), 0, 0), cut := end, inPayload := l.atAt)
    else if l.oldDelete.Some? then
      d.(sections := Bump(d.sections, 1, 0, l.oldDelete.value), cut := end, inPayload := false)
    else if l.oldReplace.Some? then
      var op := l.oldReplace.value;
      d.(sections := Bump(d.sections, 1, Ones(op.inline), if op.delete then op.lines else 0),
        cut := end, inPayload := true)
    else if l.plus then d.(sections := Bump(d.sections, 0, 1, 0), cut := end, inPayload := true)
    else if d.inPayload && (l.minus || l.context) then d.(sections := Bump(d.sections, 0, 0, Ones(l.minus)), cut := end)
    else if d.inPayload then d.(sections := Bump(d.sections, 0, 1, 0), cut := end)
    else if l.blank then d.(cut := end)
    else d.(stopped := true)
  }

  function RunDiff(ls: seq<Line>, loose: bool): Diff {
    if ls == [] then EMPTY_DIFF else StepDiff(RunDiff(ls[..|ls| - 1], loose), ls[|ls| - 1], Width(ls), loose)
  }

  // ----- the boundary -----

  datatype Reason = Complete | LegacyComplete | MissingPayload | NoPrefix

  /** The cut, the verdict with its reason, what was counted, and how many lines were read. */
  datatype Boundary = Boundary(ok: bool, cut: nat, reason: Reason, sections: seq<Section>, lineNo: nat)

  /** The text without leading space begins with dashes. */
  predicate StartsWithDashes(ls: seq<Line>) {
    ls != [] && if ls[0].blank then StartsWithDashes(ls[1..]) else ls[0].leadingDashes
  }

  function MainBoundary(s: State): Boundary {
    Boundary(s.cut > 0 && s.sections != [], s.cut,
      if Waiting(s) then MissingPayload else if s.cut > 0 && s.sections != [] then Complete else NoPrefix,
      s.sections, s.lineNo)
  }

  function DiffBoundary(d: Diff): Boundary {
    Boundary(d.cut > 0 && d.sections != [], d.cut,
      if d.cut > 0 && d.sections != [] then LegacyComplete else NoPrefix, d.sections, d.lineNo)
  }

  predicate UsesDiff(ls: seq<Line>) { RunMain(ls).sections == [] && StartsWithDashes(ls) }

  function Parse(ls: seq<Line>, loose: bool): Boundary {
    if UsesDiff(ls) then DiffBoundary(RunDiff(ls, loose)) else MainBoundary(RunMain(ls))
  }

  lemma {:induction false} StoppedStays(ls: seq<Line>, k: nat)
    requires k <= |ls| && RunMain(ls[..k]).stopped
    ensures RunMain(ls) == RunMain(ls[..k])
    decreases |ls|
  {
    if k < |ls| {
      var front := ls[..|ls| - 1];
      assert front[..k] == ls[..k];
      StoppedStays(front, k);
    } else {
      assert ls[..k] == ls;
    }
  }

  lemma {:induction false} DiffStoppedStays(ls: seq<Line>, loose: bool, k: nat)
    requires k <= |ls| && RunDiff(ls[..k], loose).stopped
    ensures RunDiff(ls, loose) == RunDiff(ls[..k], loose)
    decreases |ls|
  {
    if k < |ls| {
      var front := ls[..|ls| - 1];
      assert front[..k] == ls[..k];
      DiffStoppedStays(front, loose, k);
    } else {
      assert ls[..k] == ls;
    }
  }

  method ParseLegacyDiffBoundary(ls: seq<Line>, loose: bool) returns (b: Boundary)
    ensures b == DiffBoundary(RunDiff(ls, loose))
  {
    hide StepDiff;
    var d := EMPTY_DIFF;
    var end := 0;
    for i := 0 to |ls|
      invariant d == RunDiff(ls[..i], loose) && end == Width(ls[..i])
    {
      assert ls[..i + 1][..i] == ls[..i];
      end := end + ls[i].width;
      d := StepDiff(d, ls[i], end, loose);
      if d.stopped {
        DiffStoppedStays(ls, loose, i + 1);
        return DiffBoundary(d);
      }
    }
    assert ls[..|ls|] == ls;
    b := DiffBoundary(d);
  }

  method ParseEditBoundary(ls: seq<Line>, loose: bool) returns (b: Boundary)
    ensures b == Parse(ls, loose)
  {
    hide Step, StartsWithDashes;
    var s := INITIAL;
    var end := 0;
    var i := 0;
    while i < |ls| && !s.stopped
      invariant i <= |ls| && s == RunMain(ls[..i]) && end == Width(ls[..i])
    {
      assert ls[..i + 1][..i] == ls[..i];
      end := end + ls[i].width;
      s := Step(s, ls[i], end);
      i := i + 1;
    }
    if s.stopped { StoppedStays(ls, i); } else { assert ls[..i] == ls; }
    if s.sections == [] && StartsWithDashes(ls) {
      b := ParseLegacyDiffBoundary(ls, loose);
    } else {
      b := MainBoundary(s);
    }
  }

  // ----- how one line moves the cut -----

  predicate Cuts(s: State, t: State, end: nat) {
    && (t.cut == end || (t.cut == s.cut && Targets(t.sections) == Targets(s.sections)))
    && |s.sections| <= |t.sections|
  }

  lemma {:induction false} StepNewCuts(s: State, l: Line, end: nat)
    ensures Cuts(s, StepNew(s, l, end), end)
  {
    hide Bump;
  }

  lemma {:induction false} StepLegacyCuts(s: State, l: Line, end: nat)
    ensures Cuts(s, StepLegacy(s, l, end), end)
  {
    hide Bump;
  }

  /** A step either leaves the cut and the sections' targets, or moves the cut to the end of its line. */
  lemma {:induction false} StepCuts(s: State, l: Line, end: nat)
    ensures Cuts(s, Step(s, l, end), end)
  {
    hide StepNew, StepLegacy;
    StepNewCuts(Begun(s), l, end);
    StepLegacyCuts(Begun(s), l, end);
  }

  lemma {:induction false} StepDiffCuts(d: Diff, l: Line, end: nat, loose: bool)
    ensures var t := StepDiff(d, l, end, loose);
      && (t.cut == end || (t.cut == d.cut && Targets(t.sections) == Targets(d.sections)))
      && |d.sections| <= |t.sections|
  {
  }

  lemma {:induction false} MainWithin(ls: seq<Line>)
    requires ValidText(ls)
    ensures RunMain(ls).cut <= Width(ls)
  {
    hide Step;
    if ls != [] {
      var front, l := ls[..|ls| - 1], ls[|ls| - 1];
      assert l in ls && forall x :: x in front ==> x in ls;
      MainWithin(front);
      StepCuts(RunMain(front), l, Width(ls));
    }
  }

  lemma {:induction false} DiffWithin(ls: seq<Line>, loose: bool)
    requires ValidText(ls)
    ensures RunDiff(ls, loose).cut <= Width(ls)
  {
    hide StepDiff;
    if ls != [] {
      var front, l := ls[..|ls| - 1], ls[|ls| - 1];
      assert l in ls && forall x :: x in front ==> x in ls;
      DiffWithin(front, loose);
      StepDiffCuts(RunDiff(front, loose), l, Width(ls), loose);
    }
  }

  /** The cut lies at the end of a line, and the lines up to there leave the same cut and targets. */
  lemma {:induction false} MainCutLine(ls: seq<Line>) returns (k: nat)
    requires ValidText(ls)
    ensures k <= |ls| && Width(ls[..k]) == RunMain(ls).cut == RunMain(ls[..k]).cut
    ensures Targets(RunMain(ls[..k]).sections) == Targets(RunMain(ls).sections)
  {
    hide Step;
    if ls == [] {
      k := 0;
      assert ls[..0] == ls;
    } else {
      var front, l := ls[..|ls| - 1], ls[|ls| - 1];
      assert l in ls && forall x :: x in front ==> x in ls;
      k := MainCutLine(front);
      assert front[..k] == ls[..k];
      StepCuts(RunMain(front), l, Width(ls));
      if RunMain(ls).cut == Width(ls) {
        k := |ls|;
        assert ls[..k] == ls;
      }
    }
  }

  lemma {:induction false} DiffCutLine(ls: seq<Line>, loose: bool) returns (k: nat)
    requires ValidText(ls)
    ensures k <= |ls| && Width(ls[..k]) == RunDiff(ls, loose).cut == RunDiff(ls[..k], loose).cut
    ensures Targets(RunDiff(ls[..k], loose).sections) == Targets(RunDiff(ls, loose).sections)
  {
    hide StepDiff;
    if ls == [] {
      k := 0;
      assert ls[..0] == ls;
    } else {
      var front, l := ls[..|ls| - 1], ls[|ls| - 1];
      assert l in ls && forall x :: x in front ==> x in ls;
      k := DiffCutLine(front, loose);
      assert front[..k] == ls[..k];
      StepDiffCuts(RunDiff(front, loose), l, Width(ls), loose);
      if RunDiff(ls, loose).cut == Width(ls) {
        k := |ls|;
        assert ls[..k] == ls;
      }
    }
  }

  lemma {:induction false} MainGrows(ls: seq<Line>, j: nat)
    requires ValidText(ls) && j <= |ls|
    ensures RunMain(ls[..j]).cut <= RunMain(ls).cut && |RunMain(ls[..j]).sections| <= |RunMain(ls).sections|
    decreases |ls|
  {
    hide Step;
    if j < |ls| {
      var front, l := ls[..|ls| - 1], ls[|ls| - 1];
      assert l in ls && forall x :: x in front ==> x in ls;
      MainGrows(front, j);
      assert front[..j] == ls[..j];
      StepCuts(RunMain(front), l, Width(ls));
      MainWithin(front);
    } else {
      assert ls[..j] == ls;
    }
  }

  lemma {:induction false} DiffGrows(ls: seq<Line>, loose: bool, j: nat)
    requires ValidText(ls) && j <= |ls|
    ensures RunDiff(ls[..j], loose).cut <= RunDiff(ls, loose).cut
    decreases |ls|
  {
    hide StepDiff;
    if j < |ls| {
      var front, l := ls[..|ls| - 1], ls[|ls| - 1];
      assert l in ls && forall x :: x in front ==> x in ls;
      DiffGrows(front, loose, j);
      assert front[..j] == ls[..j];
      StepDiffCuts(RunDiff(front, loose), l, Width(ls), loose);
      DiffWithin(front, loose);
    } else {
      assert ls[..j] == ls;
    }
  }

  // ----- which parser a prefix gets -----

  predicate AllBlank(ls: seq<Line>) { forall l :: l in ls ==> l.blank }

  lemma {:induction false} DashesOfPrefix(ls: seq<Line>, j: nat)
    requires j <= |ls|
    ensures AllBlank(ls[..j]) ==> !StartsWithDashes(ls[..j])
    ensures !AllBlank(ls[..j]) ==> StartsWithDashes(ls[..j]) == StartsWithDashes(ls)
    decreases |ls|
  {
    if j > 0 {
      var p := ls[..j];
      assert p[0] == ls[0] && p[1..] == ls[1..][..j - 1] && p[0] in p;
      assert p == [p[0]] + p[1..];
      if ls[0].blank {
        DashesOfPrefix(ls[1..], j - 1);
        assert AllBlank(p) <==> AllBlank(p[1..]);
      }
    }
  }

  /** Blank lines alone are passed over by both parsers. */
  lemma {:induction false} BlankRuns(ls: seq<Line>)
    requires AllBlank(ls)
    ensures RunMain(ls) == INITIAL.(cut := Width(ls), lineNo := |ls|)
  {
    if ls != [] {
      var front := ls[..|ls| - 1];
      assert ls[|ls| - 1] in ls && forall x :: x in front ==> x in ls;
      BlankRuns(front);
    }
  }

  lemma {:induction false} BlankDiff(ls: seq<Line>, loose: bool)
    requires AllBlank(ls) && ValidText(ls)
    ensures RunDiff(ls, loose) == EMPTY_DIFF.(cut := Width(ls), lineNo := |ls|)
  {
    if ls != [] {
      var front := ls[..|ls| - 1];
      assert ls[|ls| - 1] in ls && forall x :: x in front ==> x in ls;
      BlankDiff(front, loose);
    }
  }

  /** A text that begins with dashes has no section in the current formats. */
  lemma {:induction false} DashesMeanNoSections(ls: seq<Line>)
    requires ValidText(ls) && StartsWithDashes(ls)
    ensures RunMain(ls).sections == []
    decreases |ls|
  {
    var k := FirstLine(ls);
    BlankRuns(ls[..k]);
    assert ls[k] in ls && ls[..k + 1][..k] == ls[..k] && ls[..k + 1][k] == ls[k];
    assert RunMain(ls[..k + 1]) == Step(RunMain(ls[..k]), ls[k], Width(ls[..k + 1]));
    StoppedStays(ls, k + 1);
  }

  lemma {:induction false} FirstLine(ls: seq<Line>) returns (k: nat)
    requires StartsWithDashes(ls)
    ensures k < |ls| && AllBlank(ls[..k]) && !ls[k].blank && ls[k].leadingDashes
  {
    if ls[0].blank {
      var r := FirstLine(ls[1..]);
      k := r + 1;
      assert ls[..k] == [ls[0]] + ls[1..][..r] && ls[k] == ls[1..][r];
    } else {
      k := 0;
    }
  }

  // ----- the theorems -----

  /** A text up to the cut. */
  predicate CutsAt(ls: seq<Line>, k: nat, b: Boundary) { k <= |ls| && Width(ls[..k]) == b.cut }

  /**
   Cutting a text at its boundary and parsing again gives the same boundary, the same verdict and the same
   targets, in every format.
   */
  lemma {:induction false} CutIsFixpoint(ls: seq<Line>, loose: bool) returns (k: nat)
    requires ValidText(ls)
    ensures CutsAt(ls, k, Parse(ls, loose))
    ensures var again, b := Parse(ls[..k], loose), Parse(ls, loose);
      again.cut == b.cut && again.ok == b.ok && Targets(again.sections) == Targets(b.sections)
  {
    hide RunMain, RunDiff, StartsWithDashes;
    if UsesDiff(ls) {
      k := DiffCutLine(ls, loose);
      DashesOfPrefix(ls, k);
      MainGrows(ls, k);
      if AllBlank(ls[..k]) {
        assert forall x :: x in ls[..k] ==> x in ls;
        BlankRuns(ls[..k]);
        BlankDiff(ls[..k], loose);
      }
      SameCount(RunDiff(ls[..k], loose).sections, RunDiff(ls, loose).sections);
    } else {
      k := MainCutLine(ls);
      SameCount(RunMain(ls[..k]).sections, RunMain(ls).sections);
      DashesOfPrefix(ls, k);
      if UsesDiff(ls[..k]) {
        DashesMeanNoSections(ls);
      }
    }
  }

  lemma {:induction false} SameCount(a: seq<Section>, b: seq<Section>)
    requires Targets(a) == Targets(b)
    ensures |a| == |b| && (a == [] <==> b == [])
  {
    assert |Targets(a)| == |Targets(b)|;
  }

  /** A text all of which parses. */
  predicate ParsesWhole(ls: seq<Line>, loose: bool) { Parse(ls, loose).ok && Parse(ls, loose).cut == Width(ls) }

  /** No prefix that parses whole is longer than the one the boundary cuts off. */
  lemma {:induction false} BoundaryIsLongest(ls: seq<Line>, loose: bool, j: nat)
    requires ValidText(ls) && j <= |ls| && ParsesWhole(ls[..j], loose)
    ensures Width(ls[..j]) <= Parse(ls, loose).cut
  {
    hide RunMain, RunDiff, StartsWithDashes;
    DashesOfPrefix(ls, j);
    MainGrows(ls, j);
    DiffGrows(ls, loose, j);
    if UsesDiff(ls) {
      if AllBlank(ls[..j]) { BlankRuns(ls[..j]); }
    } else if UsesDiff(ls[..j]) {
      DashesMeanNoSections(ls);
    }
  }

  /** When the parser succeeds, what it cuts off parses whole, so it is the longest prefix that does. */
  lemma {:induction false} BoundaryParsesWhole(ls: seq<Line>, loose: bool) returns (k: nat)
    requires ValidText(ls) && Parse(ls, loose).ok
    ensures CutsAt(ls, k, Parse(ls, loose)) && ParsesWhole(ls[..k], loose)
  {
    hide Parse;
    k := CutIsFixpoint(ls, loose);
  }

  // ----- what the cut does not keep -----

  /** An insert can be waiting only in the legacy format and inside a section. */
  predicate Sane(s: State) { Waiting(s) ==> s.seen && !s.format.NewHashline? && s.sections != [] }

  /** A line moves the cut and leaves nothing waiting, or changes no section and stops, or opens an insert. */
  predicate Kinds(s: State, t: State, end: nat) {
    || (t.cut == end && !Waiting(t) && t.stopped == s.stopped)
    || (t.cut == s.cut && t.stopped && t.sections == s.sections && Waiting(t) == Waiting(s))
    || (t.cut == s.cut && !s.stopped && !t.stopped && !Waiting(s) && Waiting(t)
         && s.sections != [] && t.sections == Bump(s.sections, 1, 0, 0))
  }

  lemma {:induction false} StepKinds(s: State, l: Line, end: nat)
    requires Sane(s)
    ensures Sane(Step(s, l, end)) && Kinds(s, Step(s, l, end), end)
  {
    hide Bump;
    SameCount(Bump(s.sections, 1, 0, 0), s.sections);
    SameCount(Bump(s.sections, 0, 1, 0), s.sections);
  }

  lemma {:induction false} AlwaysSane(ls: seq<Line>)
    ensures Sane(RunMain(ls))
  {
    hide Step, Sane;
    if ls != [] {
      AlwaysSane(ls[..|ls| - 1]);
      StepKinds(RunMain(ls[..|ls| - 1]), ls[|ls| - 1], Width(ls));
    } else {
      assert Sane(INITIAL) by { StartSane(); }
    }
  }

  lemma {:induction false} StartSane()
    ensures Sane(INITIAL) && !Waiting(INITIAL)
  {
  }

  lemma {:induction false} WiderPrefix(ls: seq<Line>, j: nat, k: nat)
    requires ValidText(ls) && j <= k <= |ls|
    ensures Width(ls[..j]) <= Width(ls[..k]) && (j < k ==> Width(ls[..j]) < Width(ls[..k]))
    decreases k
  {
    if j < k {
      assert ls[..k][..k - 1] == ls[..k - 1] && ls[k - 1] in ls;
      WiderPrefix(ls, j, k - 1);
    }
  }

  /** Every line is read until the parser stops. */
  lemma {:induction false} StepReads(s: State, l: Line, end: nat)
    ensures Step(s, l, end) == s || Step(s, l, end).lineNo == s.lineNo + 1
    ensures s.stopped <==> Step(s, l, end) == s
  {
    hide Bump;
  }

  lemma {:induction false} ReadsAll(ls: seq<Line>)
    ensures !RunMain(ls).stopped ==> RunMain(ls).lineNo == |ls|
  {
    hide Step;
    if ls != [] {
      ReadsAll(ls[..|ls| - 1]);
      StepReads(RunMain(ls[..|ls| - 1]), ls[|ls| - 1], Width(ls));
    }
  }

  /** A run after `k` lines, whose cut is where these lines end. */
  predicate CutAfter(ls: seq<Line>, k: nat) { k <= |ls| && Width(ls[..k]) == RunMain(ls).cut }

  /** How many lines are read: none behind the cut when there is none, the one that stops the parser, and before it
      an open insert. */
  function ReadUpTo(count: nat, k: nat, waiting: bool): int { Min(count, k + if waiting then 2 else 1) }

  /** From the cut on: the first line behind it stops the parser or opens an insert, and the next one stops it then. */
  lemma {:induction false} BehindCut(ls: seq<Line>, k: nat)
    requires ValidText(ls) && CutAfter(ls, k)
    ensures var at, s := RunMain(ls[..k]), RunMain(ls);
      && at.cut == s.cut && !Waiting(at) && !at.stopped && at.lineNo == k
      && (Waiting(s) ==>
            && at.sections != []
            && s.sections == Bump(at.sections, 1, 0, 0)
            && (s.stopped <==> |ls| >= k + 2))
      && (!Waiting(s) ==> s.sections == at.sections && (s.stopped <==> k < |ls|))
      && s.lineNo == ReadUpTo(|ls|, k, Waiting(s))
      && (Waiting(s) <==> k < |ls| && Waiting(RunMain(ls[..k + 1])))
  {
    hide Step, Bump, Sane, Waiting;
    if k == |ls| {
      assert ls[..k] == ls;
      CutAtEnd(ls);
    } else {
      var front, l := ls[..|ls| - 1], ls[|ls| - 1];
      assert l in ls && forall x :: x in front ==> x in ls;
      AlwaysSane(front);
      StepKinds(RunMain(front), l, Width(ls));
      StepReads(RunMain(front), l, Width(ls));
      WiderPrefix(ls, k, |ls|);
      assert ls[..|ls|] == ls && front[..k] == ls[..k];
      BehindCut(front, k);
      if k < |front| { assert front[..k + 1] == ls[..k + 1]; } else { assert ls[..k + 1] == ls && front[..k] == front; }
    }
  }

  /** Nothing behind the cut: nothing is open, and the parser has not stopped. */
  lemma {:induction false} CutAtEnd(ls: seq<Line>)
    requires ValidText(ls) && Width(ls) == RunMain(ls).cut
    ensures var s := RunMain(ls); !Waiting(s) && !s.stopped && s.lineNo == |ls|
  {
    hide Step, Bump, Sane, Waiting;
    if ls == [] {
      StartSane();
    } else {
      var front, l := ls[..|ls| - 1], ls[|ls| - 1];
      assert l in ls && forall x :: x in front ==> x in ls;
      AlwaysSane(front);
      MainWithin(front);
      StepKinds(RunMain(front), l, Width(ls));
      StepReads(RunMain(front), l, Width(ls));
      ReadsAll(ls);
    }
  }

  lemma {:induction false} DiffBehindCut(ls: seq<Line>, loose: bool, k: nat)
    requires ValidText(ls) && k <= |ls| && Width(ls[..k]) == RunDiff(ls, loose).cut
    ensures RunDiff(ls[..k], loose).cut == RunDiff(ls, loose).cut
    ensures RunDiff(ls[..k], loose).sections == RunDiff(ls, loose).sections
    ensures RunDiff(ls[..k], loose).lineNo == k && RunDiff(ls, loose).lineNo == ReadUpTo(|ls|, k, false)
    ensures RunDiff(ls, loose).stopped <==> k < |ls|
  {
    hide StepDiff;
    if ls == [] {
      assert ls[..k] == ls;
      return;
    }
    var front, l := ls[..|ls| - 1], ls[|ls| - 1];
    assert l in ls && forall x :: x in front ==> x in ls;
    StepDiffReads(RunDiff(front, loose), l, Width(ls), loose);
    if k < |ls| {
      StepDiffKinds(RunDiff(front, loose), l, Width(ls), loose);
      WiderPrefix(ls, k, |ls|);
      assert ls[..|ls|] == ls && front[..k] == ls[..k];
      DiffBehindCut(front, loose, k);
    } else {
      assert ls[..k] == ls;
      DiffWithin(front, loose);
      DiffReadsAll(front, loose);
    }
  }

  lemma {:induction false} StepDiffKinds(d: Diff, l: Line, end: nat, loose: bool)
    ensures var t := StepDiff(d, l, end, loose);
      (t.cut == end && !t.stopped) || (t.cut == d.cut && t.sections == d.sections && t.stopped)
  {
    hide Bump;
  }

  lemma {:induction false} StepDiffReads(d: Diff, l: Line, end: nat, loose: bool)
    ensures StepDiff(d, l, end, loose) == d || StepDiff(d, l, end, loose).lineNo == d.lineNo + 1
    ensures d.stopped <==> StepDiff(d, l, end, loose) == d
    ensures StepDiff(d, l, end, loose).stopped ==> StepDiff(d, l, end, loose).cut == d.cut
  {
    hide Bump;
  }

  lemma {:induction false} DiffReadsAll(ls: seq<Line>, loose: bool)
    ensures !RunDiff(ls, loose).stopped ==> RunDiff(ls, loose).lineNo == |ls|
  {
    hide StepDiff;
    if ls != [] {
      DiffReadsAll(ls[..|ls| - 1], loose);
      StepDiffReads(RunDiff(ls[..|ls| - 1], loose), ls[|ls| - 1], Width(ls), loose);
    }
  }

  /** More ops are other sections. */
  lemma {:induction false} BumpChanges(sections: seq<Section>)
    requires sections != []
    ensures Bump(sections, 1, 0, 0) != sections
  {
    assert Bump(sections, 1, 0, 0)[|sections| - 1].ops == sections[|sections| - 1].ops + 1;
  }

  /**
   Cutting a text at its boundary keeps the answer, counts and reason included, exactly when the line behind the
   cut does not open an insert, which is exactly when the reason is not a missing payload. The number of lines read
   is another one whenever a line stands behind the cut: that line is read, and one more behind an open insert.
   */
  lemma {:induction false} CutKeepsAll(ls: seq<Line>, loose: bool, k: nat)
    requires ValidText(ls) && CutsAt(ls, k, Parse(ls, loose))
    ensures var again, b := Parse(ls[..k], loose), Parse(ls, loose);
      && (again.(lineNo := 0) == b.(lineNo := 0) <==> b.reason != MissingPayload)
      && again.lineNo == k && b.lineNo == ReadUpTo(|ls|, k, b.reason == MissingPayload)
      && (again.lineNo == b.lineNo <==> k == |ls|)
      && (b.reason == MissingPayload <==> !UsesDiff(ls) && k < |ls| && Waiting(RunMain(ls[..k + 1])))
  {
    hide RunMain, RunDiff, StartsWithDashes, Bump;
    DashesOfPrefix(ls, k);
    if UsesDiff(ls) {
      DiffBehindCut(ls, loose, k);
      MainGrows(ls, k);
      if AllBlank(ls[..k]) {
        assert forall x :: x in ls[..k] ==> x in ls;
        BlankRuns(ls[..k]);
        BlankDiff(ls[..k], loose);
      }
    } else {
      BehindCut(ls, k);
      if UsesDiff(ls[..k]) {
        DashesMeanNoSections(ls);
      }
      if Waiting(RunMain(ls)) { BumpChanges(RunMain(ls[..k]).sections); }
    }
  }

  const PLAIN := Line(1, false, false, false, false, None, false, None, None, false, false, None,
    false, None, false, false, None, None, false, false, false)

  /** The count of ops is not kept: an insert behind the cut that lacks its payload is counted all the same. */
  lemma {:induction false} OpenInsertIsCounted()
    ensures var head, insert := PLAIN.(header := Some(Header(LegacyHashline, "a"))), PLAIN.(legacyInsert := true);
      var all := Parse([head, insert], false);
      && all.ok && all.cut == Width([head]) && all.sections == [Section("a", 1, 0, 0)] && all.reason == MissingPayload
      && Parse([head], false).sections == [Section("a", 0, 0, 0)] && Parse([head], false).reason == Complete
  {
    var head, insert := PLAIN.(header := Some(Header(LegacyHashline, "a"))), PLAIN.(legacyInsert := true);
    assert [head][..0] == [] && [head, insert][..1] == [head];
    assert Width([]) == 0 && Width([head]) == 1 && Width([head, insert]) == 2;
    assert RunMain([]) == INITIAL;
    var one := RunMain([head]);
    assert one == Step(INITIAL, head, 1);
    assert one.sections == [] + [Section("a", 0, 0, 0)] == [Section("a", 0, 0, 0)];
    assert RunMain([head, insert]) == Step(one, insert, 2);
  }

  // ----- what is done with a call -----

  datatype Action = Allow | SanitizeTail | AbortReplay

  function ActionForTool(isEdit: bool, signals: seq<nat>, boundary: Option<Boundary>): Action {
    if signals == [] then Allow
    else if isEdit && boundary.Some? && boundary.value.ok && forall s :: s in signals ==> s >= boundary.value.cut
      then SanitizeTail
    else AbortReplay
  }

  /** A sanitized input keeps no signal, and what is kept parses whole. */
  lemma {:induction false} SanitizedIsClean(ls: seq<Line>, loose: bool, signals: seq<nat>) returns (k: nat)
    requires ValidText(ls) && ActionForTool(true, signals, Some(Parse(ls, loose))) == SanitizeTail
    ensures k <= |ls| && ParsesWhole(ls[..k], loose) && forall s :: s in signals ==> s >= Width(ls[..k])
  {
    hide Parse;
    k := BoundaryParsesWhole(ls, loose);
  }
}
