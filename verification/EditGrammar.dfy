/**
 The language of edit inputs in the current formats, and that the boundary is the end
 of the longest beginning of an input that belongs to it.
 */
module EditGrammar {
  import opened Basics
  import opened EditBoundary

  // ----- the language -----

  /** A blank line, a patch marker, a header, or an op with the lines of its text. */
  datatype Piece = Gap(l: Line) | Patch(l: Line) | Head(l: Line) | Op(l: Line, text: seq<Line>)

  predicate IsPatch(l: Line) { l.beginPatch || l.endPatch }

  /** Neither a patch marker nor a header. */
  predicate IsPlain(l: Line) { !IsPatch(l) && l.header.None? }

  /** What the patterns have to do with each other: no pattern fits a blank line, and old ops begin like blockers. */
  predicate Classified(l: Line) {
    && (l.blank ==>
          && IsPlain(l) && !l.newBlocked && l.newInsert.None? && l.newRange.None?
          && !l.legacyBlocked && !l.legacyInsert && l.legacyReplace.None?)
    && (l.legacyInsert || l.legacyReplace.Some? ==> l.legacyBlocked)
  }

  /** A line that can be text of an op. */
  predicate IsText(f: Format, l: Line) {
    && IsPlain(l)
    && if f.NewHashline? then !l.newBlocked && l.newInsert.None? && l.newRange.None? else !l.legacyBlocked
  }

  predicate StartsOp(f: Format, l: Line) {
    && IsPlain(l) && !l.blank
    && if f.NewHashline? then l.newInsert.Some? || l.newRange.Some? else l.legacyInsert || l.legacyReplace.Some?
  }

  /** All ops take text, but a delete of the new format. */
  predicate TakesText(f: Format, l: Line) {
    f.NewHashline? ==> l.newInsert.Some? || (l.newRange.Some? && !l.newRange.value.delete)
  }

  /** An insert of the old formats is nothing without text. */
  predicate NeedsText(f: Format, l: Line) { !f.NewHashline? && l.legacyInsert }

  /** Where the last header stands, if there is one. */
  function LastHead(ps: seq<Piece>): (h: int)
    ensures -1 <= h < |ps| && (h >= 0 ==> ps[h].Head? && ps[h].l.header.Some?)
  {
    if ps == [] then -1
    else
      var n := |ps| - 1;
      if ps[n].Head? && ps[n].l.header.Some? then n else LastHead(ps[..n])
  }

  /** The format that the last header sets. */
  function FormatOf(ps: seq<Piece>): Option<Format> {
    var h := LastHead(ps);
    if h < 0 then None else Some(ps[h].l.header.value.format)
  }

  predicate AllGaps(ps: seq<Piece>) { forall i :: 0 <= i < |ps| ==> ps[i].Gap? }

  /** The last piece is an op to which more text can be added. */
  predicate Open(ps: seq<Piece>) {
    ps != [] && ps[|ps| - 1].Op? && FormatOf(ps).Some? && TakesText(FormatOf(ps).value, ps[|ps| - 1].l)
  }

  /** The last piece is no op that lacks its text. */
  predicate Whole(ps: seq<Piece>) {
    ps != [] && ps[|ps| - 1].Op? && ps[|ps| - 1].text == [] && FormatOf(ps).Some? ==>
      !NeedsText(FormatOf(ps).value, ps[|ps| - 1].l)
  }

  /**
   What may follow: blank lines before everything, or behind a header where they are not text; markers and headers
   anywhere; ops behind a header, each with its text.
   */
  predicate Follows(before: seq<Piece>, p: Piece) {
    && Whole(before)
    && match p
       case Gap(l) => l.blank && (AllGaps(before) || (FormatOf(before).Some? && !Open(before)))
       case Patch(l) => IsPatch(l)
       case Head(l) => !IsPatch(l) && l.header.Some?
       case Op(l, text) =>
         && FormatOf(before).Some? && StartsOp(FormatOf(before).value, l)
         && (text != [] ==> TakesText(FormatOf(before).value, l))
         && forall t :: t in text ==> IsText(FormatOf(before).value, t)
  }

  predicate Pieces(ps: seq<Piece>) { ps == [] || (Pieces(ps[..|ps| - 1]) && Follows(ps[..|ps| - 1], ps[|ps| - 1])) }

  function LinesIn(p: Piece): seq<Line> { if p.Op? then [p.l] + p.text else [p.l] }

  function AllLines(ps: seq<Piece>): seq<Line> {
    if ps == [] then [] else AllLines(ps[..|ps| - 1]) + LinesIn(ps[|ps| - 1])
  }

  /** A complete sequence of sections. */
  ghost predicate Sentence(ls: seq<Line>, ps: seq<Piece>) { Pieces(ps) && Whole(ps) && AllLines(ps) == ls }

  // ----- what a sentence comes to -----

  /** An op with text on its own line. */
  predicate HasInline(f: Format, l: Line) {
    && f.NewHashline?
    && if l.newInsert.Some? then l.newInsert.value
       else l.newRange.Some? && !l.newRange.value.delete && l.newRange.value.inline
  }

  /** Lines that an op takes out. */
  function TakesOut(f: Format, l: Line): nat {
    if f.NewHashline? then
      if l.newInsert.None? && l.newRange.Some? then l.newRange.value.lines else 0
    else if !l.legacyInsert && l.legacyReplace.Some? then l.legacyReplace.value
    else 0
  }

  function OpsIn(ps: seq<Piece>): nat {
    if ps == [] then 0 else OpsIn(ps[..|ps| - 1]) + if ps[|ps| - 1].Op? then 1 else 0
  }

  function TextIn(f: Format, ps: seq<Piece>): nat {
    if ps == [] then 0
    else
      var p := ps[|ps| - 1];
      TextIn(f, ps[..|ps| - 1]) + if p.Op? then (if HasInline(f, p.l) then 1 else 0) + |p.text| else 0
  }

  function TakenIn(f: Format, ps: seq<Piece>): nat {
    if ps == [] then 0
    else
      var p := ps[|ps| - 1];
      TakenIn(f, ps[..|ps| - 1]) + if p.Op? then TakesOut(f, p.l) else 0
  }

  /** Per header a section, with the ops behind it, their lines of text, and the lines they take out. */
  function SectionsIn(ps: seq<Piece>): seq<Section> {
    var h := LastHead(ps);
    if h < 0 then []
    else
      var header, body := ps[h].l.header.value, ps[h + 1..];
      SectionsIn(ps[..h])
      + [Section(header.target, OpsIn(body), TextIn(header.format, body), TakenIn(header.format, body))]
  }

  // ----- the state machine reads this language -----

  /** The state after the lines of some pieces. */
  ghost predicate Reads(ps: seq<Piece>, s: State, end: nat) {
    && !s.stopped && s.sections == SectionsIn(ps) && (s.sections == [] <==> FormatOf(ps).None?)
    && (FormatOf(ps).Some? ==> s.format == FormatOf(ps).value)
    && (s.seen <==> !AllGaps(ps)) && (s.allowed <==> Open(ps)) && (Waiting(s) <==> !Whole(ps))
    && (Whole(ps) ==> s.cut == end)
  }

  /** The pieces with one more line, if it can follow. */
  function Extend(ps: seq<Piece>, l: Line): Option<seq<Piece>> {
    var f := FormatOf(ps);
    if AllGaps(ps) && l.blank then Some(ps + [Gap(l)])
    else if IsPatch(l) then if Whole(ps) then Some(ps + [Patch(l)]) else None
    else if l.header.Some? then if Whole(ps) then Some(ps + [Head(l)]) else None
    else if f.None? then None
    else if Open(ps) && IsText(f.value, l) then
      var n := |ps| - 1;
      Some(ps[..n] + [Op(ps[n].l, ps[n].text + [l])])
    else if !Whole(ps) then None
    else if l.blank then Some(ps + [Gap(l)])
    else if StartsOp(f.value, l) then Some(ps + [Op(l, [])])
    else None
  }

  lemma {:induction false} FormatEnd(ps: seq<Piece>, p: Piece)
    ensures FormatOf(ps + [p]) == if p.Head? && p.l.header.Some? then Some(p.l.header.value.format) else FormatOf(ps)
    ensures AllLines(ps + [p]) == AllLines(ps) + LinesIn(p)
    ensures AllGaps(ps + [p]) <==> AllGaps(ps) && p.Gap?
    ensures Pieces(ps + [p]) <==> Pieces(ps) && Follows(ps, p)
  {
    var all := ps + [p];
    assert all[..|ps|] == ps && all[|ps|] == p;
    if AllGaps(all) {
      forall i | 0 <= i < |ps| ensures ps[i].Gap? { assert all[i].Gap?; }
    }
  }

  lemma {:induction false} HeadEnd(ps: seq<Piece>, p: Piece)
    ensures LastHead(ps + [p]) == if p.Head? && p.l.header.Some? then |ps| else LastHead(ps)
    ensures LastHead(ps) < 0 ==> SectionsIn(ps) == []
  {
    assert (ps + [p])[..|ps|] == ps;
  }

  function InlineText(f: Format, l: Line): nat { if HasInline(f, l) then 1 else 0 }

  lemma {:induction false} CountsEnd(f: Format, body: seq<Piece>, p: Piece)
    ensures OpsIn(body + [p]) == OpsIn(body) + if p.Op? then 1 else 0
    ensures TextIn(f, body + [p]) == TextIn(f, body) + if p.Op? then InlineText(f, p.l) + |p.text| else 0
    ensures TakenIn(f, body + [p]) == TakenIn(f, body) + if p.Op? then TakesOut(f, p.l) else 0
  {
    assert (body + [p])[..|body|] == body;
  }

  lemma {:induction false} SectionsEnd(ps: seq<Piece>, p: Piece)
    ensures SectionsIn(ps + [p]) ==
      match p
      case Head(l) =>
        if l.header.Some? then SectionsIn(ps) + [Section(l.header.value.target, 0, 0, 0)] else SectionsIn(ps)
      case Op(l, text) =>
        var f := FormatOf(ps);
        if f.None? then SectionsIn(ps)
        else Bump(SectionsIn(ps), 1, InlineText(f.value, l) + |text|, TakesOut(f.value, l))
      case _ => SectionsIn(ps)
  {
    hide OpsIn, TextIn, TakenIn, TakesOut, InlineText, LastHead;
    var all, h := ps + [p], LastHead(ps);
    HeadEnd(ps, p);
    if p.Head? && p.l.header.Some? {
      assert all[..|ps|] == ps && all[|ps| + 1..] == [];
      assert OpsIn([]) == 0 && forall f :: TextIn(f, []) == 0 == TakenIn(f, []) by { NoCounts(); }
    } else if h >= 0 {
      assert all[..h] == ps[..h] && all[h + 1..] == ps[h + 1..] + [p];
      CountsEnd(FormatOf(ps).value, ps[h + 1..], p);
    }
  }

  lemma {:induction false} NoCounts()
    ensures OpsIn([]) == 0 && forall f :: TextIn(f, []) == 0 == TakenIn(f, [])
  {
  }

  lemma {:induction false} EndOpen(ps: seq<Piece>, p: Piece)
    ensures var f := FormatOf(ps);
      && (Open(ps + [p]) <==> p.Op? && f.Some? && TakesText(f.value, p.l))
      && (Whole(ps + [p]) <==> !(p.Op? && p.text == [] && f.Some? && NeedsText(f.value, p.l)))
  {
    FormatEnd(ps, p);
    assert (ps + [p])[|ps|] == p;
  }

  lemma {:induction false} BumpTwice(ss: seq<Section>, a: nat, b: nat, c: nat, more: nat)
    ensures Bump(Bump(ss, a, b, c), 0, more, 0) == Bump(ss, a, b + more, c)
  {
  }

  /** A line that makes a new piece. */
  lemma {:induction false} StepMore(ps: seq<Piece>, p: Piece, s: State, l: Line, was: nat, end: nat)
    requires Pieces(ps) && Reads(ps, s, was) && Classified(l) && Extend(ps, l) == Some(ps + [p])
    ensures Reads(ps + [p], Step(s, l, end), end)
  {
    hide LastHead, FormatOf, SectionsIn, Whole, Pieces, Bump, AllLines, Follows;
    FormatEnd(ps, p);
    SectionsEnd(ps, p);
    EndOpen(ps, p);
    EndPiece(ps, p, l);
  }

  lemma {:induction false} EndPiece(ps: seq<Piece>, p: Piece, l: Line)
    requires Extend(ps, l) == Some(ps + [p])
    ensures p ==
      if AllGaps(ps) && l.blank then Gap(l) else if IsPatch(l) then Patch(l) else if l.header.Some? then Head(l)
      else if l.blank then Gap(l) else Op(l, [])
    ensures p.Patch? || p.Head? || (AllGaps(ps) && l.blank) || (
      && FormatOf(ps).Some? && !(Open(ps) && IsText(FormatOf(ps).value, l))
      && (l.blank || StartsOp(FormatOf(ps).value, l)))
    ensures Whole(ps)
  {
    var q := ps + [p];
    assert q[|ps|] == p && |q| == |ps| + 1;
    assert forall x: Piece :: (ps + [x])[|ps|] == x;
  }

  lemma {:induction false} TextStep(s: State, l: Line, end: nat)
    requires !s.stopped && s.seen && s.sections != [] && s.allowed && IsText(s.format, l)
    ensures var t := Step(s, l, end);
      && !t.stopped && t.seen && t.allowed && t.format == s.format && t.cut == end
      && t.sections == Bump(s.sections, 0, 1, 0) && (Waiting(t) ==> Waiting(s) && s.format.NewHashline?)
  {
    hide Bump;
  }

  /** A line that is one more line of text. */
  lemma {:induction false} StepText(ps: seq<Piece>, s: State, l: Line, was: nat, end: nat)
    requires Pieces(ps) && Reads(ps, s, was) && Classified(l)
    requires Extend(ps, l).Some? && |Extend(ps, l).value| == |ps|
    ensures Reads(Extend(ps, l).value, Step(s, l, end), end)
  {
    hide LastHead, FormatOf, SectionsIn, AllGaps, Pieces, Bump, AllLines, Follows, Step, IsText;
    var front, p := ps[..|ps| - 1], ps[|ps| - 1];
    var more := Op(p.l, p.text + [l]);
    assert ps == front + [p];
    FormatEnd(front, p);
    SectionsEnd(front, p);
    EndOpen(front, p);
    TextStep(s, l, end);
    FormatEnd(front, more);
    SectionsEnd(front, more);
    EndOpen(front, more);
    var f := FormatOf(front).value;
    BumpTwice(SectionsIn(front), 1, InlineText(f, p.l) + |p.text|, TakesOut(f, p.l), 1);
  }

  /** The state machine stops where no piece can be made of a line, and otherwise reads it as such. */
  lemma {:induction false} StepExtends(ps: seq<Piece>, s: State, l: Line, was: nat, end: nat)
    requires Pieces(ps) && Reads(ps, s, was) && Classified(l)
    ensures Extend(ps, l).None? ==> Step(s, l, end).stopped
    ensures Extend(ps, l).Some? ==> Reads(Extend(ps, l).value, Step(s, l, end), end)
  {
    hide LastHead, FormatOf, SectionsIn, AllGaps, Pieces, Bump, AllLines, Follows;
    var f, q := FormatOf(ps), Extend(ps, l);
    if q.Some? {
      if |q.value| == |ps| + 1 {
        var p := q.value[|ps|];
        assert q.value == ps + [p];
        FormatEnd(ps, p);
        SectionsEnd(ps, p);
        EndOpen(ps, p);
        StepMore(ps, p, s, l, was, end);
      } else {
        StepText(ps, s, l, was, end);
      }
    }
  }

  // ----- all of the language, and nothing else -----

  predicate AllClassified(ls: seq<Line>) { forall l :: l in ls ==> Classified(l) }

  lemma {:induction false} ExtendIsPieces(ps: seq<Piece>, l: Line)
    requires Pieces(ps) && Classified(l) && Extend(ps, l).Some?
    ensures Pieces(Extend(ps, l).value) && AllLines(Extend(ps, l).value) == AllLines(ps) + [l]
  {
    hide LastHead, FormatOf, AllGaps, Pieces, AllLines;
    var q := Extend(ps, l).value;
    if |q| == |ps| + 1 {
      var p := q[|ps|];
      assert q == ps + [p];
      FormatEnd(ps, p);
      EndPiece(ps, p, l);
    } else {
      var front, p := ps[..|ps| - 1], ps[|ps| - 1];
      var more := Op(p.l, p.text + [l]);
      assert ps == front + [p] && q == front + [more];
      FormatEnd(front, p);
      FormatEnd(front, more);
      EndOpen(front, p);
      assert AllLines(front) + ([p.l] + (p.text + [l])) == AllLines(front) + ([p.l] + p.text) + [l];
    }
  }

  /** Pieces without their last line. */
  function Shorter(q: seq<Piece>): (ps: seq<Piece>)
    requires q != []
  {
    var n := |q| - 1;
    if q[n].Op? && q[n].text != [] then q[..n] + [Op(q[n].l, q[n].text[..|q[n].text| - 1])] else q[..n]
  }

  function LastLine(q: seq<Piece>): Line
    requires q != []
  {
    var p := q[|q| - 1];
    if p.Op? && p.text != [] then p.text[|p.text| - 1] else p.l
  }

  lemma {:induction false} ShorterExtends(q: seq<Piece>)
    requires q != [] && Pieces(q) && Classified(LastLine(q))
    ensures Pieces(Shorter(q)) && Extend(Shorter(q), LastLine(q)) == Some(q)
  {
    hide LastHead, FormatOf, AllGaps, Pieces, AllLines;
    var front, p, l := q[..|q| - 1], q[|q| - 1], LastLine(q);
    assert q == front + [p];
    FormatEnd(front, p);
    if p.Op? && p.text != [] {
      var less := Op(p.l, p.text[..|p.text| - 1]);
      FormatEnd(front, less);
      EndOpen(front, less);
      assert forall t :: t in less.text ==> t in p.text;
      assert l in p.text && p.text == less.text + [l];
      assert (front + [less])[..|front|] == front;
    }
  }

  lemma {:induction false} NoPieces()
    ensures Pieces([]) && Reads([], INITIAL, 0)
  {
  }

  /** Pieces are read to their end. */
  lemma {:induction false} PiecesAreRead(q: seq<Piece>)
    requires Pieces(q) && AllClassified(AllLines(q))
    ensures Reads(q, RunMain(AllLines(q)), Width(AllLines(q)))
    decreases |AllLines(q)|
  {
    hide Reads, Pieces, Step, Extend, Shorter;
    var ls := AllLines(q);
    if q == [] {
      NoPieces();
    } else {
      var ps, l := Shorter(q), LastLine(q);
      LastIsLast(q);
      ShorterExtends(q);
      ExtendIsPieces(ps, l);
      assert l in ls && ls[..|ls| - 1] == AllLines(ps) && forall x :: x in AllLines(ps) ==> x in ls;
      PiecesAreRead(ps);
      StepExtends(ps, RunMain(AllLines(ps)), l, Width(AllLines(ps)), Width(ls));
    }
  }

  lemma {:induction false} LastIsLast(q: seq<Piece>)
    requires q != []
    ensures AllLines(q) != [] && AllLines(q)[|AllLines(q)| - 1] == LastLine(q)
  {
    var p := q[|q| - 1];
    assert LinesIn(p)[|LinesIn(p)| - 1] == LastLine(q);
  }

  /** What is read to its end is made of pieces. */
  lemma {:induction false} ReadIsPieces(ls: seq<Line>) returns (q: seq<Piece>)
    requires AllClassified(ls) && !RunMain(ls).stopped
    ensures Pieces(q) && AllLines(q) == ls
  {
    hide Reads, Pieces, Step, Extend, Shorter;
    if ls == [] {
      q := [];
      NoPieces();
    } else {
      var front, l := ls[..|ls| - 1], ls[|ls| - 1];
      assert ls == front + [l] && l in ls && forall x :: x in front ==> x in ls;
      if RunMain(front).stopped { StoppedStays(ls, |front|); }
      var ps := ReadIsPieces(front);
      PiecesAreRead(ps);
      StepExtends(ps, RunMain(front), l, Width(front), Width(ls));
      ExtendIsPieces(ps, l);
      q := Extend(ps, l).value;
    }
  }

  lemma {:induction false} StopKeeps(s: State, l: Line, end: nat)
    requires !s.stopped && Step(s, l, end).stopped
    ensures Step(s, l, end).cut == s.cut && Step(s, l, end).sections == s.sections
    ensures Waiting(Step(s, l, end)) <==> Waiting(s)
  {
    hide Bump;
  }

  /** The lines before the one at which the machine stops, if it does. */
  lemma {:induction false} StopsAt(ls: seq<Line>) returns (m: nat)
    ensures m <= |ls| && !RunMain(ls[..m]).stopped
    ensures forall j :: m < j <= |ls| ==> RunMain(ls[..j]).stopped
    ensures var s, t := RunMain(ls[..m]), RunMain(ls);
      s.cut == t.cut && s.sections == t.sections && (Waiting(s) <==> Waiting(t))
  {
    hide Step;
    m := |ls|;
    assert ls[..m] == ls;
    if RunMain(ls).stopped {
      var front, l := ls[..|ls| - 1], ls[|ls| - 1];
      if RunMain(front).stopped { StoppedStays(ls, |front|); } else { StopKeeps(RunMain(front), l, Width(ls)); }
      m := StopsAt(front);
      assert front[..m] == ls[..m];
      forall j | m < j <= |ls| ensures RunMain(ls[..j]).stopped {
        if j <= |front| { assert front[..j] == ls[..j]; } else { assert ls[..j] == ls; }
      }
    }
  }

  lemma {:induction false} OpeningKeepsCut(ps: seq<Piece>, l: Line, s: State, was: nat, end: nat)
    requires Pieces(ps) && Reads(ps, s, was) && Classified(l) && Extend(ps, l) == Some(ps + [Op(l, [])])
    requires !Whole(ps + [Op(l, [])])
    ensures Whole(ps) && Step(s, l, end).cut == was
  {
    hide LastHead, FormatOf, SectionsIn, Pieces, Bump, AllLines, Follows;
    EndPiece(ps, Op(l, []), l);
    EndOpen(ps, Op(l, []));
  }

  lemma {:induction false} OpenShape(q: seq<Piece>)
    requires !Whole(q)
    ensures q != [] && q == Shorter(q) + [Op(LastLine(q), [])]
  {
    hide FormatOf, NeedsText;
  }

  lemma {:induction false} RunEnd(front: seq<Line>, l: Line)
    ensures RunMain(front + [l]) == Step(RunMain(front), l, Width(front + [l]))
  {
    hide Step, Width;
    assert (front + [l])[..|front|] == front;
  }

  /** Pieces of which the last one lacks its text: without it they are a sentence, and the cut is their end. */
  lemma {:induction false} OpenInsert(q: seq<Piece>) returns (ps: seq<Piece>, l: Line)
    requires Pieces(q) && !Whole(q) && AllClassified(AllLines(q))
    ensures q == ps + [Op(l, [])] && AllLines(q) == AllLines(ps) + [l] && Sentence(AllLines(ps), ps)
    ensures RunMain(AllLines(q)).cut == Width(AllLines(ps))
  {
    hide Reads, Pieces, Step, Extend, Whole, RunMain, Width, AllLines, Classified, Shorter, LastLine;
    OpenShape(q);
    ps, l := Shorter(q), LastLine(q);
    LastIsLast(q);
    ShorterExtends(q);
    ExtendIsPieces(ps, l);
    var ls, front := AllLines(q), AllLines(ps);
    assert l in ls && ls == front + [l] && forall x :: x in front ==> x in ls;
    PiecesAreRead(ps);
    RunEnd(front, l);
    OpeningKeepsCut(ps, l, RunMain(front), Width(front), Width(ls));
  }

  lemma {:induction false} SentenceIsRead(ls: seq<Line>, ps: seq<Piece>)
    requires AllClassified(ls) && Sentence(ls, ps)
    ensures !RunMain(ls).stopped && !Waiting(RunMain(ls)) && RunMain(ls).cut == Width(ls)
  {
    hide Pieces, Step, Whole, SectionsIn;
    PiecesAreRead(ps);
  }

  /** The line begins an op behind these pieces that lacks its text. */
  predicate Opens(ps: seq<Piece>, l: Line) { Pieces(ps + [Op(l, [])]) && !Whole(ps + [Op(l, [])]) }

  /** What is read to its end is a sentence, or one with an insert behind it that lacks its text. */
  lemma {:induction false} EndOfRead(ls: seq<Line>) returns (k: nat, ps: seq<Piece>)
    requires AllClassified(ls) && !RunMain(ls).stopped
    ensures k <= |ls| <= k + 1 && Sentence(ls[..k], ps) && RunMain(ls).cut == Width(ls[..k])
    ensures if k < |ls| then Waiting(RunMain(ls)) && Opens(ps, ls[k]) else !Waiting(RunMain(ls))
    ensures RunMain(ls).sections == SectionsIn(if k < |ls| then ps + [Op(ls[k], [])] else ps)
  {
    hide Pieces, Step, Whole, SectionsIn, Width, RunMain, Open, FormatOf, AllGaps, AllLines;
    var q := ReadIsPieces(ls);
    PiecesAreRead(q);
    if Whole(q) {
      k, ps := |ls|, q;
      assert ls[..k] == ls;
    } else {
      var l;
      ps, l := OpenInsert(q);
      k := |ls| - 1;
      assert ls == AllLines(ps) + [l] && ls[..k] == AllLines(ps) && ls[k] == l;
    }
  }

  lemma {:induction false} OpensIsRead(ls: seq<Line>, k: nat, ps: seq<Piece>)
    requires AllClassified(ls) && k < |ls| && Sentence(ls[..k], ps) && Opens(ps, ls[k])
    ensures !RunMain(ls[..k + 1]).stopped && Waiting(RunMain(ls[..k + 1]))
  {
    hide Pieces, Step, Whole, SectionsIn;
    var q := ps + [Op(ls[k], [])];
    FormatEnd(ps, q[|ps|]);
    assert ls[..k + 1] == AllLines(q);
    assert forall x :: x in ls[..k + 1] ==> x in ls;
    PiecesAreRead(q);
  }

  lemma {:induction false} PrefixClassified(ls: seq<Line>, j: nat)
    requires AllClassified(ls) && j <= |ls|
    ensures AllClassified(ls[..j])
  {
    assert forall x :: x in ls[..j] ==> x in ls;
  }

  /**
   The cut is the end of the longest beginning that is a complete sequence of sections, and what is counted is what
   these come to, with an insert behind them that lacks its text, if there is one.
   */
  lemma {:induction false} LongestSentence(ls: seq<Line>) returns (k: nat, ps: seq<Piece>)
    requires AllClassified(ls)
    ensures k <= |ls| && Sentence(ls[..k], ps) && RunMain(ls).cut == Width(ls[..k])
    ensures forall j, qs :: k < j <= |ls| ==> !Sentence(ls[..j], qs)
    ensures Waiting(RunMain(ls)) <==> k < |ls| && Opens(ps, ls[k])
    ensures RunMain(ls).sections == SectionsIn(if k < |ls| && Opens(ps, ls[k]) then ps + [Op(ls[k], [])] else ps)
  {
    hide Sentence, Step, SectionsIn, Width, RunMain, Classified, Opens, AllClassified;
    var m := StopsAt(ls);
    PrefixClassified(ls, m);
    k, ps := EndOfRead(ls[..m]);
    assert ls[..m][..k] == ls[..k];
    if k < |ls| && Opens(ps, ls[k]) { OpensIsRead(ls, k, ps); }
    forall j, qs | k < j <= |ls| ensures !Sentence(ls[..j], qs) {
      if Sentence(ls[..j], qs) {
        PrefixClassified(ls, j);
        SentenceIsRead(ls[..j], qs);
      }
    }
  }

  lemma {:induction false} SomeWidth(ls: seq<Line>)
    requires ValidText(ls)
    ensures Width(ls) > 0 <==> ls != []
  {
    if ls != [] { assert ls[|ls| - 1] in ls; }
  }

  /** Of the answer that is not left to the oldest format. */
  lemma {:induction false} BoundaryIsLongestSentence(ls: seq<Line>, loose: bool) returns (k: nat, ps: seq<Piece>)
    requires AllClassified(ls) && ValidText(ls) && !UsesDiff(ls)
    ensures k <= |ls| && Sentence(ls[..k], ps) && Parse(ls, loose).cut == Width(ls[..k])
    ensures forall j, qs :: k < j <= |ls| ==> !Sentence(ls[..j], qs)
    ensures var b := Parse(ls, loose);
      && (b.ok <==> SectionsIn(ps) != [])
      && (b.reason.MissingPayload? <==> k < |ls| && Opens(ps, ls[k]))
      && b.sections == SectionsIn(if b.reason.MissingPayload? then ps + [Op(ls[k], [])] else ps)
  {
    hide Pieces, Step, Width, RunMain, Classified, AllClassified;
    k, ps := LongestSentence(ls);
    assert forall x :: x in ls[..k] ==> x in ls;
    SomeWidth(ls[..k]);
    if k < |ls| { SectionsEnd(ps, Op(ls[k], [])); }
  }
}
