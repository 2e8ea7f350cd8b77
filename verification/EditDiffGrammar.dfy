/**
 The language of edit inputs in the oldest format, and that the boundary is the end of the longest beginning of an
 input that belongs to it.
 */
module EditDiffGrammar {
  import opened Basics
  import opened EditBoundary

  // ----- the language -----

  /** A blank line, the name of a file behind dashes, or a line with a meaning of its own and the text behind it. */
  datatype Piece = Space(l: Line) | Name(l: Line) | Run(l: Line, text: seq<Line>)

  predicate IsName(l: Line) { l.dashes.Some? && l.dashes.value != "" }

  /** A line with a meaning of its own. */
  predicate Starts(l: Line) {
    && l.dashes.None?
    && (l.plusPlusPlus || l.atAt || l.oldDelete.Some? || l.oldReplace.Some? || l.plus)
  }

  /** Text follows a hunk header, a replacement and an added line, but no file header and no deletion. */
  predicate TakesText(l: Line) {
    l.atAt || (!l.plusPlusPlus && l.oldDelete.None? && (l.oldReplace.Some? || l.plus))
  }

  predicate IsText(l: Line) { l.dashes.None? && !Starts(l) }

  /** A line that counts as an operation; a hunk header or a file header is nothing else beside. */
  predicate IsOp(l: Line) { l.atAt || (!l.plusPlusPlus && (l.oldDelete.Some? || l.oldReplace.Some?)) }

  predicate IsReplace(l: Line) { !l.atAt && !l.plusPlusPlus && l.oldDelete.None? && l.oldReplace.Some? }

  predicate IsPlus(l: Line) { !l.atAt && !l.plusPlusPlus && l.oldDelete.None? && l.oldReplace.None? && l.plus }

  function OpsIn(ps: seq<Piece>): nat {
    if ps == [] then 0
    else OpsIn(ps[..|ps| - 1]) + if ps[|ps| - 1].Run? && IsOp(ps[|ps| - 1].l) then 1 else 0
  }

  /** Where the last name stands, if there is one. */
  function LastName(ps: seq<Piece>): (h: int)
    ensures -1 <= h < |ps| && (h >= 0 ==> ps[h].Name? && ps[h].l.dashes.Some?)
  {
    if ps == [] then -1
    else
      var n := |ps| - 1;
      if ps[n].Name? && ps[n].l.dashes.Some? then n else LastName(ps[..n])
  }

  /** Operations behind the last name. */
  function OpsBehind(ps: seq<Piece>): nat {
    var h := LastName(ps);
    if h < 0 then 0 else OpsIn(ps[h + 1..])
  }

  /** Where a marker ends the input, it does so behind an operation. */
  predicate Barred(ps: seq<Piece>, l: Line, loose: bool) { loose && l.marker && OpsBehind(ps) > 0 }

  /** The last piece takes more text. */
  predicate Open(ps: seq<Piece>) { ps != [] && ps[|ps| - 1].Run? && TakesText(ps[|ps| - 1].l) }

  /** Blank lines where they are not text; names anywhere; all else behind a name. */
  predicate Follows(before: seq<Piece>, p: Piece, loose: bool) {
    && !Barred(before, p.l, loose)
    && match p
       case Space(l) => l.blank && IsBlankHere(before, l)
       case Name(l) => IsName(l)
       case Run(l, text) =>
         && LastName(before) >= 0 && Starts(l) && (text != [] ==> TakesText(l))
         && forall t :: t in text ==> IsText(t) && !Barred(before + [Run(l, [])], t, loose)
  }

  predicate IsBlankHere(before: seq<Piece>, l: Line) {
    l.dashes.None? && (LastName(before) >= 0 ==> !Starts(l) && !Open(before))
  }

  predicate Pieces(ps: seq<Piece>, loose: bool) {
    ps == [] || (Pieces(ps[..|ps| - 1], loose) && Follows(ps[..|ps| - 1], ps[|ps| - 1], loose))
  }

  function LinesIn(p: Piece): seq<Line> { if p.Run? then [p.l] + p.text else [p.l] }

  function AllLines(ps: seq<Piece>): seq<Line> {
    if ps == [] then [] else AllLines(ps[..|ps| - 1]) + LinesIn(ps[|ps| - 1])
  }

  ghost predicate Sentence(ls: seq<Line>, ps: seq<Piece>, loose: bool) { Pieces(ps, loose) && AllLines(ps) == ls }

  // ----- what a sentence comes to -----

  /** Lines of text that neither begin with a minus nor are context. */
  function NewLines(text: seq<Line>): nat {
    if text == [] then 0
    else
      var n := |text| - 1;
      NewLines(text[..n]) + if !text[n].minus && !text[n].context then 1 else 0
  }

  function MinusLines(text: seq<Line>): nat {
    if text == [] then 0
    else
      var n := |text| - 1;
      MinusLines(text[..n]) + if text[n].minus then 1 else 0
  }

  /** Added lines, among them one on the line of a replacement. */
  function AddedBy(p: Piece): nat {
    if !p.Run? then 0
    else NewLines(p.text) + if IsPlus(p.l) || (IsReplace(p.l) && p.l.oldReplace.value.inline) then 1 else 0
  }

  /** Deleted lines; a replacement by inserting deletes none of its range. */
  function DeletedBy(p: Piece): nat {
    if !p.Run? then 0
    else
      MinusLines(p.text)
      + if p.l.atAt || p.l.plusPlusPlus then 0
        else if p.l.oldDelete.Some? then p.l.oldDelete.value
        else if IsReplace(p.l) && p.l.oldReplace.value.delete then p.l.oldReplace.value.lines
        else 0
  }

  function AddedIn(ps: seq<Piece>): nat {
    if ps == [] then 0 else AddedIn(ps[..|ps| - 1]) + AddedBy(ps[|ps| - 1])
  }

  function DeletedIn(ps: seq<Piece>): nat {
    if ps == [] then 0 else DeletedIn(ps[..|ps| - 1]) + DeletedBy(ps[|ps| - 1])
  }

  /** Per name a section, with what stands behind it. */
  function SectionsIn(ps: seq<Piece>): seq<Section> {
    var h := LastName(ps);
    if h < 0 then []
    else
      var body := ps[h + 1..];
      SectionsIn(ps[..h]) + [Section(ps[h].l.dashes.value, OpsIn(body), AddedIn(body), DeletedIn(body))]
  }

  // ----- the loop reads this language -----

  ghost predicate Reads(ps: seq<Piece>, d: Diff, end: nat) {
    && !d.stopped && d.cut == end && d.sections == SectionsIn(ps) && (d.sections == [] <==> LastName(ps) < 0)
    && (OpenOps(d) <==> OpsBehind(ps) > 0) && (d.inPayload <==> Open(ps)) && (d.sections == [] ==> !d.inPayload)
  }

  /** The pieces with one more line, if it can follow. */
  function Extend(ps: seq<Piece>, l: Line, loose: bool): Option<seq<Piece>> {
    if Barred(ps, l, loose) then None
    else if l.dashes.Some? then if IsName(l) then Some(ps + [Name(l)]) else None
    else if LastName(ps) >= 0 && Starts(l) then Some(ps + [Run(l, [])])
    else if LastName(ps) >= 0 && Open(ps) then
      var n := |ps| - 1;
      Some(ps[..n] + [Run(ps[n].l, ps[n].text + [l])])
    else if l.blank then Some(ps + [Space(l)])
    else None
  }

  lemma {:induction false} PieceEnd(ps: seq<Piece>, p: Piece, loose: bool)
    ensures LastName(ps + [p]) == if p.Name? && p.l.dashes.Some? then |ps| else LastName(ps)
    ensures AllLines(ps + [p]) == AllLines(ps) + LinesIn(p)
    ensures Open(ps + [p]) <==> p.Run? && TakesText(p.l)
    ensures Pieces(ps + [p], loose) <==> Pieces(ps, loose) && Follows(ps, p, loose)
    ensures LastName(ps) < 0 ==> SectionsIn(ps) == []
  {
    assert (ps + [p])[..|ps|] == ps && (ps + [p])[|ps|] == p;
  }

  lemma {:induction false} CountsEnd(body: seq<Piece>, p: Piece)
    ensures OpsIn(body + [p]) == OpsIn(body) + if p.Run? && IsOp(p.l) then 1 else 0
    ensures AddedIn(body + [p]) == AddedIn(body) + AddedBy(p)
    ensures DeletedIn(body + [p]) == DeletedIn(body) + DeletedBy(p)
    ensures OpsIn([]) == AddedIn([]) == DeletedIn([]) == 0
  {
    assert (body + [p])[..|body|] == body;
  }

  lemma {:induction false} SectionsEnd(ps: seq<Piece>, p: Piece)
    ensures SectionsIn(ps + [p]) ==
      if p.Name? && p.l.dashes.Some? then SectionsIn(ps) + [Section(p.l.dashes.value, 0, 0, 0)]
      else Bump(SectionsIn(ps), if p.Run? && IsOp(p.l) then 1 else 0, AddedBy(p), DeletedBy(p))
  {
    hide OpsIn, AddedIn, DeletedIn, AddedBy, DeletedBy, LastName, IsOp, Pieces, Follows, AllLines, Open, LinesIn;
    var all, h := ps + [p], LastName(ps);
    PieceEnd(ps, p, false);
    CountsEnd([], p);
    if p.Name? && p.l.dashes.Some? {
      assert all[..|ps|] == ps && all[|ps| + 1..] == [];
    } else if h >= 0 {
      assert all[..h] == ps[..h] && all[h + 1..] == ps[h + 1..] + [p];
      CountsEnd(ps[h + 1..], p);
    }
  }

  lemma {:induction false} OpsEnd(ps: seq<Piece>, p: Piece)
    ensures OpsBehind(ps + [p]) ==
      if (p.Name? && p.l.dashes.Some?) || LastName(ps) < 0 then 0
      else OpsBehind(ps) + if p.Run? && IsOp(p.l) then 1 else 0
  {
    hide OpsIn, LastName, IsOp, Pieces, Follows, AllLines, Open, LinesIn, SectionsIn, AddedIn, DeletedIn, AddedBy,
      DeletedBy;
    var all, h := ps + [p], LastName(ps);
    PieceEnd(ps, p, false);
    CountsEnd([], p);
    if p.Name? && p.l.dashes.Some? {
      assert all[|ps| + 1..] == [];
    } else if h >= 0 {
      assert all[h + 1..] == ps[h + 1..] + [p];
      CountsEnd(ps[h + 1..], p);
    }
  }

  lemma {:induction false} LastSection(ps: seq<Piece>)
    ensures SectionsIn(ps) == [] <==> LastName(ps) < 0
    ensures SectionsIn(ps) != [] ==> SectionsIn(ps)[|SectionsIn(ps)| - 1].ops == OpsBehind(ps)
  {
    hide OpsIn, LastName, AddedIn, DeletedIn;
  }

  lemma {:induction false} TextEnd(l: Line, text: seq<Line>, t: Line)
    ensures AddedBy(Run(l, text + [t])) == AddedBy(Run(l, text)) + if !t.minus && !t.context then 1 else 0
    ensures DeletedBy(Run(l, text + [t])) == DeletedBy(Run(l, text)) + if t.minus then 1 else 0
    ensures NewLines([]) == MinusLines([]) == 0
  {
    assert (text + [t])[..|text|] == text;
  }

  lemma {:induction false} BumpTwice(ss: seq<Section>, a: nat, b: nat, c: nat, x: nat, y: nat)
    ensures Bump(Bump(ss, a, b, c), 0, x, y) == Bump(ss, a, b + x, c + y)
  {
  }

  lemma {:induction false} EndPiece(ps: seq<Piece>, p: Piece, l: Line, loose: bool)
    requires Extend(ps, l, loose) == Some(ps + [p])
    ensures p == if l.dashes.Some? then Name(l) else if LastName(ps) >= 0 && Starts(l) then Run(l, []) else Space(l)
    ensures !Barred(ps, l, loose) && (p.Name? ==> IsName(l)) && (p.Run? ==> LastName(ps) >= 0 && Starts(l))
    ensures p.Space? ==> l.blank && IsBlankHere(ps, l)
  {
    var q := ps + [p];
    assert q[|ps|] == p && |q| == |ps| + 1;
    assert forall x: Piece :: (ps + [x])[|ps|] == x;
  }

  lemma {:induction false} ExtendIsPieces(ps: seq<Piece>, l: Line, loose: bool)
    requires Pieces(ps, loose) && Extend(ps, l, loose).Some?
    ensures var q := Extend(ps, l, loose).value; Pieces(q, loose) && AllLines(q) == AllLines(ps) + [l]
  {
    hide LastName, Pieces, AllLines, OpsBehind, Starts, SectionsIn, IsOp, TakesText;
    var q := Extend(ps, l, loose).value;
    if |q| == |ps| + 1 {
      var p := q[|ps|];
      assert q == ps + [p];
      PieceEnd(ps, p, loose);
      EndPiece(ps, p, l, loose);
    } else {
      var front, p := ps[..|ps| - 1], ps[|ps| - 1];
      var more := Run(p.l, p.text + [l]);
      assert ps == front + [p] && q == front + [more];
      PieceEnd(front, p, loose);
      PieceEnd(front, more, loose);
      OpsEnd(front, p);
      OpsEnd(front, Run(p.l, []));
      assert AllLines(front) + ([p.l] + (p.text + [l])) == AllLines(front) + ([p.l] + p.text) + [l];
    }
  }

  lemma {:induction false} PieceStep(d: Diff, p: Piece, l: Line, end: nat, loose: bool)
    requires !d.stopped && !(loose && l.marker && OpenOps(d))
    requires if l.dashes.Some? then IsName(l) && p == Name(l)
      else if d.sections != [] && Starts(l) then p == Run(l, [])
      else p == Space(l) && l.blank && !d.inPayload
    ensures var t := StepDiff(d, l, end, loose);
      && !t.stopped && t.cut == end && (t.inPayload <==> p.Run? && TakesText(l))
      && t.sections ==
        if p.Name? then d.sections + [Section(l.dashes.value, 0, 0, 0)]
        else Bump(d.sections, if p.Run? && IsOp(l) then 1 else 0, AddedBy(p), DeletedBy(p))
  {
    hide Bump, NewLines, MinusLines;
    TextEnd(l, [], l);
    NoBump(d.sections);
  }

  lemma {:induction false} StepMore(ps: seq<Piece>, p: Piece, d: Diff, l: Line, was: nat, end: nat, loose: bool)
    requires Reads(ps, d, was) && Extend(ps, l, loose) == Some(ps + [p])
    ensures Reads(ps + [p], StepDiff(d, l, end, loose), end)
  {
    hide LastName, SectionsIn, Bump, OpsBehind, Extend, Pieces, Follows, AllLines, AddedBy, DeletedBy, StepDiff,
      Starts, TakesText, IsOp;
    PieceEnd(ps, p, loose);
    SectionsEnd(ps, p);
    OpsEnd(ps, p);
    EndPiece(ps, p, l, loose);
    PieceStep(d, p, l, end, loose);
    OpenOpsWhen(ps + [p], StepDiff(d, l, end, loose));
  }

  lemma {:induction false} OpenOpsWhen(ps: seq<Piece>, d: Diff)
    requires d.sections == SectionsIn(ps)
    ensures OpenOps(d) <==> OpsBehind(ps) > 0
    ensures d.sections == [] <==> LastName(ps) < 0
  {
    hide LastName, SectionsIn, OpsBehind;
    LastSection(ps);
    NoneBehind(ps);
  }

  lemma {:induction false} NoneBehind(ps: seq<Piece>)
    ensures LastName(ps) < 0 ==> OpsBehind(ps) == 0
  {
  }

  lemma {:induction false} NoBump(ss: seq<Section>)
    ensures Bump(ss, 0, 0, 0) == ss
  {
  }

  lemma {:induction false} TextStep(d: Diff, l: Line, end: nat, loose: bool)
    requires !d.stopped && d.sections != [] && d.inPayload && IsText(l) && !(loose && l.marker && OpenOps(d))
    ensures StepDiff(d, l, end, loose) == Diff(
      Bump(d.sections, 0, if !l.minus && !l.context then 1 else 0, if l.minus then 1 else 0), end, d.lineNo + 1, true,
      false)
  {
    hide Bump;
  }

  lemma {:induction false} StepText(ps: seq<Piece>, d: Diff, l: Line, was: nat, end: nat, loose: bool)
    requires Reads(ps, d, was) && Extend(ps, l, loose).Some? && |Extend(ps, l, loose).value| == |ps|
    ensures Reads(Extend(ps, l, loose).value, StepDiff(d, l, end, loose), end)
  {
    hide LastName, SectionsIn, Bump, OpsBehind, AddedBy, DeletedBy, IsOp, Pieces, Follows, AllLines, StepDiff, OpenOps,
      Starts, TakesText;
    TextStep(d, l, end, loose);
    var front, p := ps[..|ps| - 1], ps[|ps| - 1];
    var more := Run(p.l, p.text + [l]);
    assert ps == front + [p];
    PieceEnd(front, p, loose);
    PieceEnd(front, more, loose);
    SectionsEnd(front, p);
    SectionsEnd(front, more);
    OpsEnd(front, p);
    OpsEnd(front, more);
    TextEnd(p.l, p.text, l);
    BumpTwice(SectionsIn(front), if IsOp(p.l) then 1 else 0, AddedBy(p), DeletedBy(p),
      if !l.minus && !l.context then 1 else 0, if l.minus then 1 else 0);
    OpenOpsWhen(front + [more], StepDiff(d, l, end, loose));
  }

  /** The loop stops where no piece can be made of a line, and otherwise reads it as such. */
  lemma {:induction false} StepExtends(ps: seq<Piece>, d: Diff, l: Line, was: nat, end: nat, loose: bool)
    requires Reads(ps, d, was)
    ensures var q := Extend(ps, l, loose);
      if q.Some? then Reads(q.value, StepDiff(d, l, end, loose), end) else StepDiff(d, l, end, loose).stopped
  {
    hide LastName, SectionsIn, Bump, OpsBehind;
    var q := Extend(ps, l, loose);
    if q.Some? {
      if |q.value| == |ps| + 1 {
        var p := q.value[|ps|];
        assert q.value == ps + [p];
        StepMore(ps, p, d, l, was, end, loose);
      } else {
        StepText(ps, d, l, was, end, loose);
      }
    }
  }

  // ----- all of the language, and nothing else -----

  /** Pieces without their last line. */
  function Shorter(q: seq<Piece>): (ps: seq<Piece>)
    requires q != []
  {
    var n := |q| - 1;
    if q[n].Run? && q[n].text != [] then q[..n] + [Run(q[n].l, q[n].text[..|q[n].text| - 1])] else q[..n]
  }

  function LastLine(q: seq<Piece>): Line
    requires q != []
  {
    var p := q[|q| - 1];
    if p.Run? && p.text != [] then p.text[|p.text| - 1] else p.l
  }

  lemma {:induction false} ShorterText(front: seq<Piece>, p: Piece, loose: bool)
    requires p.Run? && p.text != [] && Pieces(front + [p], loose)
    ensures var q := front + [p];
      Pieces(Shorter(q), loose) && Extend(Shorter(q), LastLine(q), loose) == Some(q)
  {
    hide LastName, Pieces, AllLines, OpsBehind, Starts, SectionsIn, IsOp, TakesText;
    var n := |p.text| - 1;
    var less, l := Run(p.l, p.text[..n]), p.text[n];
    var ps := front + [less];
    assert Shorter(front + [p]) == ps && LastLine(front + [p]) == l;
    PieceEnd(front, p, loose);
    PieceEnd(front, less, loose);
    OpsEnd(front, less);
    OpsEnd(front, Run(p.l, []));
    assert forall t :: t in less.text ==> t in p.text;
    assert l in p.text && p.text == less.text + [l];
    assert ps[..|front|] == front && ps[|front|] == less;
  }

  lemma {:induction false} ShorterLine(front: seq<Piece>, p: Piece, loose: bool)
    requires !(p.Run? && p.text != []) && Pieces(front + [p], loose)
    ensures var q := front + [p];
      Pieces(Shorter(q), loose) && Extend(Shorter(q), LastLine(q), loose) == Some(q)
  {
    hide LastName, Pieces, AllLines, OpsBehind, SectionsIn, TakesText;
    var q := front + [p];
    assert q[..|front|] == front && q[|front|] == p;
    PieceEnd(front, p, loose);
  }

  lemma {:induction false} ShorterExtends(q: seq<Piece>, loose: bool)
    requires q != [] && Pieces(q, loose)
    ensures Pieces(Shorter(q), loose) && Extend(Shorter(q), LastLine(q), loose) == Some(q)
  {
    hide Pieces, Extend, Shorter, LastLine;
    var front, p := q[..|q| - 1], q[|q| - 1];
    assert q == front + [p];
    if p.Run? && p.text != [] { ShorterText(front, p, loose); } else { ShorterLine(front, p, loose); }
  }

  lemma {:induction false} LastIsLast(q: seq<Piece>)
    requires q != []
    ensures AllLines(q) != [] && AllLines(q)[|AllLines(q)| - 1] == LastLine(q)
  {
    var p := q[|q| - 1];
    assert LinesIn(p)[|LinesIn(p)| - 1] == LastLine(q);
  }

  lemma {:induction false} NoPieces(loose: bool)
    ensures Pieces([], loose) && Reads([], EMPTY_DIFF, 0) && AllLines([]) == [] && Width([]) == 0
  {
  }

  /** Pieces are read to their end. */
  lemma {:induction false} PiecesAreRead(q: seq<Piece>, loose: bool)
    requires Pieces(q, loose)
    ensures Reads(q, RunDiff(AllLines(q), loose), Width(AllLines(q)))
    decreases |AllLines(q)|
  {
    hide Reads, Pieces, StepDiff, Extend, Shorter;
    var ls := AllLines(q);
    if q == [] {
      NoPieces(loose);
    } else {
      var ps, l := Shorter(q), LastLine(q);
      LastIsLast(q);
      ShorterExtends(q, loose);
      ExtendIsPieces(ps, l, loose);
      assert ls[..|ls| - 1] == AllLines(ps);
      PiecesAreRead(ps, loose);
      StepExtends(ps, RunDiff(AllLines(ps), loose), l, Width(AllLines(ps)), Width(ls), loose);
    }
  }

  lemma {:induction false} StopKeeps(d: Diff, l: Line, end: nat, loose: bool)
    requires !d.stopped && StepDiff(d, l, end, loose).stopped
    ensures StepDiff(d, l, end, loose).cut == d.cut && StepDiff(d, l, end, loose).sections == d.sections
  {
    hide Bump;
  }

  /** The pieces of what is read before the loop stops. */
  lemma {:induction false} ReadPart(ls: seq<Line>, loose: bool) returns (k: nat, ps: seq<Piece>)
    ensures k <= |ls| && Sentence(ls[..k], ps, loose)
    ensures RunDiff(ls, loose).cut == Width(ls[..k]) && RunDiff(ls, loose).sections == SectionsIn(ps)
    ensures if RunDiff(ls, loose).stopped then k < |ls| && RunDiff(ls[..k + 1], loose).stopped else k == |ls|
  {
    hide Pieces, StepDiff, Extend, SectionsIn, Width, AllLines;
    if ls == [] {
      k, ps := 0, [];
      NoPieces(loose);
      assert ls[..0] == [] == AllLines([]);
    } else {
      var front, l := ls[..|ls| - 1], ls[|ls| - 1];
      assert ls == front + [l] && ls[..|ls|] == ls;
      k, ps := ReadPart(front, loose);
      assert ls[..k] == front[..k];
      var d := RunDiff(front, loose);
      if d.stopped {
        assert ls[..k + 1] == front[..k + 1];
        DiffStoppedStays(ls, loose, |front|);
      } else {
        assert front[..k] == front;
        PiecesAreRead(ps, loose);
        StepExtends(ps, d, l, Width(front), Width(ls), loose);
        if RunDiff(ls, loose).stopped {
          StopKeeps(d, l, Width(ls), loose);
        } else {
          ExtendIsPieces(ps, l, loose);
          k, ps := |ls|, Extend(ps, l, loose).value;
        }
      }
    }
  }

  /** The cut is the end of the longest beginning that is made of pieces, and what is counted is what these come to. */
  lemma {:induction false} LongestDiff(ls: seq<Line>, loose: bool) returns (k: nat, ps: seq<Piece>)
    ensures k <= |ls| && Sentence(ls[..k], ps, loose)
    ensures RunDiff(ls, loose).cut == Width(ls[..k]) && RunDiff(ls, loose).sections == SectionsIn(ps)
    ensures forall j, qs :: k < j <= |ls| ==> !Sentence(ls[..j], qs, loose)
  {
    hide Pieces, RunDiff, SectionsIn, Width, AllLines;
    k, ps := ReadPart(ls, loose);
    forall j, qs | k < j <= |ls| ensures !Sentence(ls[..j], qs, loose) {
      if Sentence(ls[..j], qs, loose) {
        assert ls[..j][..k + 1] == ls[..k + 1];
        DiffStoppedStays(ls[..j], loose, k + 1);
        PiecesAreRead(qs, loose);
      }
    }
  }

  lemma {:induction false} SomeWidth(ls: seq<Line>)
    requires ValidText(ls)
    ensures Width(ls) > 0 <==> ls != []
  {
    if ls != [] { assert ls[|ls| - 1] in ls; }
  }

  /** Of the answer that is left to the oldest format. */
  lemma {:induction false} DiffBoundaryIsLongest(ls: seq<Line>, loose: bool) returns (k: nat, ps: seq<Piece>)
    requires ValidText(ls) && UsesDiff(ls)
    ensures k <= |ls| && Sentence(ls[..k], ps, loose) && Parse(ls, loose).cut == Width(ls[..k])
    ensures forall j, qs :: k < j <= |ls| ==> !Sentence(ls[..j], qs, loose)
    ensures var b := Parse(ls, loose);
      && b.sections == SectionsIn(ps) && (b.ok <==> SectionsIn(ps) != [])
      && b.reason == if SectionsIn(ps) != [] then LegacyComplete else NoPrefix
  {
    hide Pieces, StepDiff, Width, RunDiff;
    k, ps := LongestDiff(ls, loose);
    assert forall x :: x in ls[..k] ==> x in ls;
    SomeWidth(ls[..k]);
  }
}
