/**
 Reading a diff: the items added and removed, and where they stand.

 Diff lines arrive classified; the text of an item is already trimmed.  The scan
 keeps its place step by step; beside it stands where a line is, told from the
 lines before it.
 */
module DiffReading {
  import opened Basics

  datatype DiffLine =
    | NewFile(path: string)
    | FileHeader
    | HunkHeader(oldStart: nat, newStart: nat)
    | Added(item: Option<string>, heading: bool)
    | Removed(item: Option<string>)
    | Context
    | Other

  datatype HunkRef = HunkRef(path: string, index: nat)

  /** An item in a file, the same wherever it stands in it. */
  datatype ItemRef = ItemRef(path: string, text: string)

  datatype Candidate = Candidate(item: ItemRef, line: nat, hunk: HunkRef)

  datatype Removal = Removal(item: ItemRef, hunk: HunkRef)

  // ----- reading the diff -----

  datatype Scan = Scan(
    path: string, newLine: nat, hunk: int,
    candidates: seq<Candidate>, removals: seq<Removal>, headings: set<HunkRef>)

  const START := Scan("", 0, -1, [], [], {})

  function Step(s: Scan, line: DiffLine): Scan {
    var here := HunkRef(s.path, if s.hunk < 0 then 0 else s.hunk);
    if line.NewFile? then s.(path := line.path)
    else if line.FileHeader? then s.(path := "", hunk := -1)
    else if line.HunkHeader? then s.(newLine := line.newStart, hunk := if s.hunk < 0 then 0 else s.hunk + 1)
    else if s.path == "" || s.hunk < 0 then s
    else if line.Added? then
      s.(newLine := s.newLine + 1,
         headings := if line.heading then s.headings + {here} else s.headings,
         candidates := if line.item.None? then s.candidates
                       else s.candidates + [Candidate(ItemRef(s.path, line.item.value), s.newLine, here)])
    else if line.Removed? && line.item.Some? then
      s.(removals := s.removals + [Removal(ItemRef(s.path, line.item.value), here)])
    else if line.Context? then s.(newLine := s.newLine + 1)
    else s
  }

  function ScanAll(diff: seq<DiffLine>): Scan {
    if diff == [] then START else Step(ScanAll(diff[..|diff| - 1]), diff[|diff| - 1])
  }

  // ----- where a line stands -----

  /** The last line before `d` of a kind. */
  function LastBefore(diff: seq<DiffLine>, d: nat, kind: DiffLine -> bool): (r: Option<nat>)
    requires d <= |diff|
    ensures r.None? ==> forall i :: 0 <= i < d ==> !kind(diff[i])
    ensures r.Some? ==> r.value < d && kind(diff[r.value]) && forall i :: r.value < i < d ==> !kind(diff[i])
  {
    if d == 0 then None
    else if kind(diff[d - 1]) then Some(d - 1)
    else LastBefore(diff, d - 1, kind)
  }

  predicate Names(line: DiffLine) { line.NewFile? || line.FileHeader? }

  predicate Opens(line: DiffLine) { line.HunkHeader? || line.FileHeader? }

  predicate Closes(line: DiffLine) { line.FileHeader? }

  /** The file that line `d` is in: the one named last, and none behind the next file's header. */
  function FileAt(diff: seq<DiffLine>, d: nat): string
    requires d <= |diff|
  {
    var f := LastBefore(diff, d, Names);
    if f.Some? && diff[f.value].NewFile? then diff[f.value].path else ""
  }

  /** The header of the hunk that line `d` is in. */
  function HunkAt(diff: seq<DiffLine>, d: nat): (r: Option<nat>)
    requires d <= |diff|
    ensures r.Some? ==> r.value < d && diff[r.value].HunkHeader?
  {
    var h := LastBefore(diff, d, Opens);
    if h.Some? && diff[h.value].HunkHeader? then h else None
  }

  predicate Stands(diff: seq<DiffLine>, d: nat)
    requires d <= |diff|
  {
    FileAt(diff, d) != "" && HunkAt(diff, d).Some?
  }

  /** The hunk headers among lines `from` to `to`. */
  function Headers(diff: seq<DiffLine>, from: nat, to: nat): nat
    requires from <= to <= |diff|
  {
    if from == to then 0 else Headers(diff, from, to - 1) + (if diff[to - 1].HunkHeader? then 1 else 0)
  }

  /** The place behind the last header of a file. */
  function FileStart(diff: seq<DiffLine>, d: nat): (r: nat)
    requires d <= |diff|
    ensures r <= d
  {
    var f := LastBefore(diff, d, Closes);
    if f.Some? then f.value + 1 else 0
  }

  function HunkRefAt(diff: seq<DiffLine>, d: nat): HunkRef
    requires d <= |diff| && Headers(diff, FileStart(diff, d), d) > 0
  {
    HunkRef(FileAt(diff, d), Headers(diff, FileStart(diff, d), d) - 1)
  }

  /** The lines of the new file among lines `from` to `to` of the diff. */
  function NewLines(diff: seq<DiffLine>, from: nat, to: nat): nat
    requires from <= to <= |diff|
  {
    if from == to then 0
    else
      var last := diff[to - 1];
      NewLines(diff, from, to - 1) + (if (last.Added? || last.Context?) && FileAt(diff, to - 1) != "" then 1 else 0)
  }

  /** The number in the new file of the line that stands at `d`, or would. */
  function LineAt(diff: seq<DiffLine>, d: nat): nat
    requires d <= |diff| && HunkAt(diff, d).Some?
  {
    var h := HunkAt(diff, d).value;
    diff[h].newStart + NewLines(diff, h + 1, d)
  }

  lemma {:induction false} HunkHasHeaders(diff: seq<DiffLine>, d: nat)
    requires d <= |diff|
    ensures HunkAt(diff, d).Some? <==> Headers(diff, FileStart(diff, d), d) > 0
  {
    if d > 0 { HunkHasHeaders(diff, d - 1); }
  }

  // ----- what is to be found -----

  predicate AddsItem(line: DiffLine) { line.Added? && line.item.Some? }

  predicate RemovesItem(line: DiffLine) { line.Removed? && line.item.Some? }

  /** The places below `n`, in order, of lines of a kind that stand in a hunk of a named file. */
  function Places(diff: seq<DiffLine>, n: nat, kind: DiffLine -> bool): (ds: seq<nat>)
    requires n <= |diff|
    ensures forall d :: d in ds <==> 0 <= d < n && kind(diff[d]) && Stands(diff, d)
    ensures forall i, j :: 0 <= i < j < |ds| ==> ds[i] < ds[j]
  {
    if n == 0 then []
    else
      var ds := Places(diff, n - 1, kind);
      assert forall k :: 0 <= k < |ds| ==> ds[k] in ds;
      if kind(diff[n - 1]) && Stands(diff, n - 1) then ds + [n - 1] else ds
  }

  function AdditionAt(diff: seq<DiffLine>, d: nat): Candidate
    requires d < |diff| && AddsItem(diff[d]) && Stands(diff, d)
  {
    HunkHasHeaders(diff, d);
    Candidate(ItemRef(FileAt(diff, d), diff[d].item.value), LineAt(diff, d), HunkRefAt(diff, d))
  }

  function RemovalAt(diff: seq<DiffLine>, d: nat): Removal
    requires d < |diff| && RemovesItem(diff[d]) && Stands(diff, d)
  {
    HunkHasHeaders(diff, d);
    Removal(ItemRef(FileAt(diff, d), diff[d].item.value), HunkRefAt(diff, d))
  }

  /** Line `d` adds a release heading in a hunk. */
  predicate HeadingAt(diff: seq<DiffLine>, d: nat, h: HunkRef)
    requires d < |diff|
  {
    && diff[d].Added? && diff[d].heading && Stands(diff, d)
    && Headers(diff, FileStart(diff, d), d) > 0 && h == HunkRefAt(diff, d)
  }

  /**
   Of the first `n` lines: each item added and removed, in order, and where it stands, and the hunks with new
   headings.
   */
  ghost predicate Finds(diff: seq<DiffLine>, n: nat, s: Scan)
    requires n <= |diff|
  {
    var added, removed := Places(diff, n, AddsItem), Places(diff, n, RemovesItem);
    && |s.candidates| == |added| && |s.removals| == |removed|
    && (forall k :: 0 <= k < |added| ==> added[k] in added && s.candidates[k] == AdditionAt(diff, added[k]))
    && (forall k :: 0 <= k < |removed| ==> removed[k] in removed && s.removals[k] == RemovalAt(diff, removed[k]))
    && (forall h :: h in s.headings <==> exists d :: 0 <= d < n && HeadingAt(diff, d, h))
  }

  ghost predicate Placed(diff: seq<DiffLine>, n: nat, s: Scan)
    requires n <= |diff|
  {
    && s.path == FileAt(diff, n) && s.hunk == Headers(diff, FileStart(diff, n), n) - 1
    && (HunkAt(diff, n).Some? ==> s.newLine == LineAt(diff, n))
  }

  lemma {:induction false} StepPlaced(diff: seq<DiffLine>, n: nat, s: Scan)
    requires n < |diff| && Placed(diff, n, s)
    ensures Placed(diff, n + 1, Step(s, diff[n]))
  {
    HunkHasHeaders(diff, n);
  }

  /** What a step adds to what was found. */
  lemma {:induction false} StepAdds(diff: seq<DiffLine>, n: nat, s: Scan)
    requires n < |diff| && Placed(diff, n, s)
    ensures Stands(diff, n) ==> Headers(diff, FileStart(diff, n), n) > 0
    ensures var t, line := Step(s, diff[n]), diff[n];
      && t.candidates == s.candidates + (if AddsItem(line) && Stands(diff, n) then [AdditionAt(diff, n)] else [])
      && t.removals == s.removals + (if RemovesItem(line) && Stands(diff, n) then [RemovalAt(diff, n)] else [])
      && t.headings == s.headings
                       + (if line.Added? && line.heading && Stands(diff, n) then {HunkRefAt(diff, n)} else {})
  {
    hide FileAt, HunkAt, LineAt, Headers, FileStart;
    HunkHasHeaders(diff, n);
  }

  lemma {:induction false} PlacesStep(diff: seq<DiffLine>, n: nat, kind: DiffLine -> bool)
    requires n < |diff|
    ensures Places(diff, n + 1, kind)
         == Places(diff, n, kind) + (if kind(diff[n]) && Stands(diff, n) then [n] else [])
  {
  }

  lemma {:induction false} HeadingsStep(diff: seq<DiffLine>, n: nat, s: Scan, t: Scan)
    requires n < |diff| && (Stands(diff, n) ==> Headers(diff, FileStart(diff, n), n) > 0)
    requires forall h :: h in s.headings <==> exists d :: 0 <= d < n && HeadingAt(diff, d, h)
    requires t.headings == s.headings
                           + (if diff[n].Added? && diff[n].heading && Stands(diff, n) then {HunkRefAt(diff, n)} else {})
    ensures forall h :: h in t.headings <==> exists d :: 0 <= d < n + 1 && HeadingAt(diff, d, h)
  {
    hide Stands, Headers, FileStart;
    forall h ensures h in t.headings <==> exists d :: 0 <= d < n + 1 && HeadingAt(diff, d, h) {
      if h in s.headings {
        var d :| 0 <= d < n && HeadingAt(diff, d, h);
        assert d < n + 1;
      } else if h in t.headings {
        assert HeadingAt(diff, n, h);
      }
    }
  }

  lemma {:induction false} StepFinds(diff: seq<DiffLine>, n: nat, s: Scan)
    requires n < |diff| && Placed(diff, n, s) && Finds(diff, n, s)
    ensures Finds(diff, n + 1, Step(s, diff[n]))
  {
    hide Step, Places, Stands, HunkRefAt, AdditionAt, RemovalAt, HeadingAt, AddsItem, RemovesItem;
    StepAdds(diff, n, s);
    PlacesStep(diff, n, AddsItem);
    PlacesStep(diff, n, RemovesItem);
    HeadingsStep(diff, n, s, Step(s, diff[n]));
  }

  lemma {:induction false} NothingFound(diff: seq<DiffLine>)
    ensures Placed(diff, 0, START) && Finds(diff, 0, START)
  {
  }

  /** The scan finds every addition and removal of an item, each in its file, hunk and line. */
  lemma {:induction false} ScanFinds(diff: seq<DiffLine>, n: nat)
    requires n <= |diff|
    ensures Placed(diff, n, ScanAll(diff[..n])) && Finds(diff, n, ScanAll(diff[..n]))
  {
    hide Step, Placed, Finds;
    if n == 0 {
      NothingFound(diff);
    } else {
      ScanFinds(diff, n - 1);
      assert diff[..n][..n - 1] == diff[..n - 1];
      StepPlaced(diff, n - 1, ScanAll(diff[..n - 1]));
      StepFinds(diff, n - 1, ScanAll(diff[..n - 1]));
    }
  }

  /** There is one reading of a diff. */
  lemma {:induction false} FindsSame(diff: seq<DiffLine>, n: nat, s: Scan, t: Scan)
    requires n <= |diff| && Finds(diff, n, s) && Finds(diff, n, t)
    ensures s.candidates == t.candidates && s.removals == t.removals && s.headings == t.headings
  {
    hide Places, Stands, HunkRefAt, AdditionAt, RemovalAt, HeadingAt, AddsItem, RemovesItem;
  }

  method ScanDiff(diff: seq<DiffLine>) returns (s: Scan)
    ensures s == ScanAll(diff) && Finds(diff, |diff|, s)
  {
    hide Finds, Step;
    s := START;
    for i := 0 to |diff|
      invariant s == ScanAll(diff[..i])
    {
      assert diff[..i + 1][..i] == diff[..i];
      s := Step(s, diff[i]);
    }
    assert diff[..|diff|] == diff;
    ScanFinds(diff, |diff|);
  }
}
