/**
 Parsing what was rendered gives the document back, up to blank lines at the edges of its parts.
 */
module ChangelogRoundTrip {
  import opened ChangelogText
  import opened ChangelogDocument

  predicate Without(m: Mark, ts: seq<Text>) { forall t :: t in ts ==> !Is(m, t) }

  predicate SubFits(b: Sub) { Free(AtRelease, b.lines) && Free(AtHeading, b.lines) }

  predicate SectionFits(s: Section) {
    Free(AtRelease, s.lead) && Free(AtHeading, s.lead) && forall b :: b in s.subs ==> SubFits(b)
  }

  /** Every line stands where the parser could have put it. */
  predicate Fits(doc: Doc) {
    Free(AtRelease, doc.prefix) && forall s :: s in doc.sections ==> SectionFits(s)
  }

  predicate TidySubFits(b: TidySub) {
    b.lines != [] && Trim(b.lines) == b.lines && Without(AtRelease, b.lines) && Without(AtHeading, b.lines)
  }

  predicate TidySectionFits(s: TidySection) {
    && Trim(s.lead) == s.lead && Without(AtRelease, s.lead) && Without(AtHeading, s.lead)
    && forall b :: b in s.subs ==> TidySubFits(b)
  }

  predicate TidyFits(t: TidyDoc) {
    Trim(t.prefix) == t.prefix && Without(AtRelease, t.prefix) && forall s :: s in t.sections ==> TidySectionFits(s)
  }

  lemma {:induction false} TrimWithin(m: Mark, ls: seq<Line>)
    requires Free(m, ls)
    ensures Without(m, Trim(Texts(ls)))
  {
    hide Trim;
    var front, back := TrimCuts(Texts(ls));
    forall t | t in Trim(Texts(ls)) ensures !Is(m, t) {
      assert t in Texts(ls);
      var i :| 0 <= i < |ls| && Texts(ls)[i] == t;
      assert ls[i] in ls;
    }
  }

  lemma {:induction false} TidySubsFit(subs: seq<Sub>)
    requires forall b :: b in subs ==> SubFits(b)
    ensures forall b :: b in TidySubs(subs) ==> TidySubFits(b)
  {
    hide Trim;
    if subs != [] {
      assert subs[0] in subs;
      TidySubsStep(subs);
      TidySubsFit(subs[1..]);
      TrimWithin(AtRelease, subs[0].lines);
      TrimWithin(AtHeading, subs[0].lines);
      TrimTwice(Texts(subs[0].lines));
    }
  }

  lemma {:induction false} TidyDocFits(doc: Doc)
    requires Fits(doc)
    ensures TidyFits(Tidy(doc))
  {
    hide Trim, TidySubs, TidySubFits;
    TrimWithin(AtRelease, doc.prefix);
    TrimTwice(Texts(doc.prefix));
    forall s | s in TidySections(doc.sections) ensures TidySectionFits(s) {
      var i :| 0 <= i < |doc.sections| && TidySections(doc.sections)[i] == s;
      var section := doc.sections[i];
      assert SectionFits(section) by { assert section in doc.sections; }
      TrimWithin(AtRelease, section.lead);
      TrimWithin(AtHeading, section.lead);
      TrimTwice(Texts(section.lead));
      TidySubsFit(section.subs);
    }
  }

  // ----- the parser sees texts only -----

  lemma {:induction false} SubsByText(a: seq<seq<Line>>, b: seq<seq<Line>>)
    requires AreChunks(AtHeading, a) && AreChunks(AtHeading, b) && |a| == |b|
    requires forall i :: 0 <= i < |a| ==> Texts(a[i]) == Texts(b[i])
    ensures TidySubs(SubsOf(a)) == TidySubs(SubsOf(b))
  {
    hide Trim, TidySubs, TidySubOf;
    if a == [] {
      assert SubsOf(a) == SubsOf(b);
    } else {
      assert AreChunks(AtHeading, a[1..]) && AreChunks(AtHeading, b[1..]);
      SubsByText(a[1..], b[1..]);
      assert SubsOf(a)[1..] == SubsOf(a[1..]) && SubsOf(b)[1..] == SubsOf(b[1..]);
      TidySubsStep(SubsOf(a));
      TidySubsStep(SubsOf(b));
      SubByText(a[0], b[0]);
    }
  }

  lemma {:induction false} SubByText(a: seq<Line>, b: seq<Line>)
    requires IsChunk(AtHeading, a) && IsChunk(AtHeading, b) && Texts(a) == Texts(b)
    ensures TidySubOf(SubOf(a)) == TidySubOf(SubOf(b))
  {
    hide Trim;
    assert a[0].text == Texts(a)[0] == Texts(b)[0] == b[0].text;
    assert Texts(a[1..]) == Texts(a)[1..] == Texts(b[1..]);
  }

  lemma {:induction false} SectionByText(a: seq<Line>, b: seq<Line>)
    requires IsChunk(AtRelease, a) && Texts(a) == Texts(b)
    ensures IsChunk(AtRelease, b) && TidySectionOf(SectionOf(a)) == TidySectionOf(SectionOf(b))
  {
    hide Chunks, Trim, TidySubs;
    assert a[0].text == Texts(a)[0] == Texts(b)[0] == b[0].text;
    assert Texts(a[1..]) == Texts(a)[1..] == Texts(b[1..]);
    FreeByText(AtRelease, a[1..], b[1..]);
    SplitsByText(AtHeading, a[1..], b[1..]);
    SubsByText(Chunks(AtHeading, a[1..]), Chunks(AtHeading, b[1..]));
  }

  lemma {:induction false} FreeByText(m: Mark, a: seq<Line>, b: seq<Line>)
    requires Free(m, a) && Texts(a) == Texts(b)
    ensures Free(m, b)
  {
    forall l | l in b ensures !Is(m, l.text) {
      var i :| 0 <= i < |b| && b[i] == l;
      assert a[i].text == Texts(a)[i] == Texts(b)[i] && a[i] in a;
    }
  }

  lemma {:induction false} ParsesByText(a: seq<Line>, b: seq<Line>)
    requires Texts(a) == Texts(b)
    ensures Tidy(Parse(a)) == Tidy(Parse(b))
  {
    hide Chunks, Trim, SectionOf, TidySectionOf;
    SplitsByText(AtRelease, a, b);
    var ca, cb := Chunks(AtRelease, a), Chunks(AtRelease, b);
    forall i | 0 <= i < |ca|
      ensures TidySectionOf(SectionsOf(ca)[i]) == TidySectionOf(SectionsOf(cb)[i])
    {
      assert ca[i] in ca;
      SectionByText(ca[i], cb[i]);
    }
    assert TidySections(SectionsOf(ca)) == TidySections(SectionsOf(cb));
  }

  // ----- a blank line at the end changes nothing -----

  /** One more unmarked line joins the last chunk, or the lead when there is none. */
  lemma {:induction false} OneMoreLine(m: Mark, ls: seq<Line>, x: Line)
    requires !Is(m, x.text)
    ensures Lead(m, ls + [x]) == if Chunks(m, ls) == [] then Lead(m, ls) + [x] else Lead(m, ls)
    ensures var cs := Chunks(m, ls); var n := |cs| - 1;
      Chunks(m, ls + [x]) == if cs == [] then [] else cs[..n] + [cs[n] + [x]]
  {
    hide Chunks, Lead;
    NoChunks(m);
    if ls == [] {
      ChunksStep(m, x, []);
      assert ls + [x] == [x] + [] && Lead(m, []) == [];
    } else {
      var rest, l := ls[1..], ls[0];
      OneMoreLine(m, rest, x);
      assert ls + [x] == [l] + (rest + [x]) && ls == [l] + rest;
      ChunksStep(m, l, rest);
      ChunksStep(m, l, rest + [x]);
      var cs := Chunks(m, rest);
      assert [l] + (Lead(m, rest) + [x]) == ([l] + Lead(m, rest)) + [x];
      if Is(m, l.text) && cs != [] {
        var first := [l] + Lead(m, rest);
        assert ([first] + cs)[..|cs|] == [first] + cs[..|cs| - 1];
      }
    }
  }

  lemma {:induction false} BlankAtEnd(ls: seq<Line>, x: Line)
    requires x.text.Blank?
    ensures Trim(Texts(ls + [x])) == Trim(Texts(ls))
  {
    hide Trim;
    var front, back := TrimCuts(Texts(ls));
    assert Texts(ls + [x]) == front + Trim(Texts(ls)) + (back + [x.text]);
    TrimBetween(front, Trim(Texts(ls)), back + [x.text]);
  }

  lemma {:induction false} SubBlankAtEnd(c: seq<Line>, x: Line)
    requires IsChunk(AtHeading, c) && x.text.Blank?
    ensures IsChunk(AtHeading, c + [x]) && TidySubOf(SubOf(c + [x])) == TidySubOf(SubOf(c))
  {
    hide Trim;
    assert (c + [x])[1..] == c[1..] + [x];
    BlankAtEnd(c[1..], x);
  }

  lemma {:induction false} SectionBlankAtEnd(c: seq<Line>, x: Line)
    requires IsChunk(AtRelease, c) && x.text.Blank?
    ensures IsChunk(AtRelease, c + [x]) && TidySectionOf(SectionOf(c + [x])) == TidySectionOf(SectionOf(c))
  {
    hide Chunks, Lead, Trim, TidySubs, SubOf, TidySubOf, Free, AreChunks;
    var body := c[1..];
    assert (c + [x])[1..] == body + [x] && (c + [x])[0] == c[0];
    FreeThen(AtRelease, body, x);
    OneMoreLine(AtHeading, body, x);
    var cs := Chunks(AtHeading, body);
    if cs == [] {
      BlankAtEnd(Lead(AtHeading, body), x);
    } else {
      LastSubBlank(cs, x);
    }
  }

  lemma {:induction false} FreeThen(m: Mark, ls: seq<Line>, x: Line)
    requires Free(m, ls) && !Is(m, x.text)
    ensures Free(m, ls + [x])
  {
  }

  lemma {:induction false} LastSubBlank(cs: seq<seq<Line>>, x: Line)
    requires AreChunks(AtHeading, cs) && cs != [] && x.text.Blank?
    ensures AreChunks(AtHeading, cs[..|cs| - 1] + [cs[|cs| - 1] + [x]])
    ensures TidySubs(SubsOf(cs[..|cs| - 1] + [cs[|cs| - 1] + [x]])) == TidySubs(SubsOf(cs))
  {
    hide Trim, TidySubs, SubOf, TidySubOf, IsChunk;
    var n := |cs| - 1;
    var more := cs[..n] + [cs[n] + [x]];
    assert cs[n] in cs;
    SubBlankAtEnd(cs[n], x);
    var kept := SubsOf(cs)[..n];
    assert SubsOf(cs) == kept + [SubOf(cs[n])] && SubsOf(more) == kept + [SubOf(more[n])];
    TidySubsEnd(kept, SubOf(cs[n]));
    TidySubsEnd(kept, SubOf(more[n]));
  }

  lemma {:induction false} ParseBlankAtEnd(ls: seq<Line>, x: Line)
    requires x.text.Blank?
    ensures Tidy(Parse(ls + [x])) == Tidy(Parse(ls))
  {
    hide Chunks, Lead, Trim, SectionOf, TidySectionOf;
    OneMoreLine(AtRelease, ls, x);
    var cs, more := Chunks(AtRelease, ls), Chunks(AtRelease, ls + [x]);
    if cs == [] {
      BlankAtEnd(Lead(AtRelease, ls), x);
    } else {
      var n := |cs| - 1;
      assert cs[n] in cs;
      SectionBlankAtEnd(cs[n], x);
      assert forall i :: 0 <= i < n ==> SectionsOf(more)[i] == SectionsOf(cs)[i];
      assert TidySections(SectionsOf(more)) == TidySections(SectionsOf(cs));
    }
  }

  lemma {:induction false} PoppedParse(ts: seq<Text>)
    ensures Tidy(Parse(Synthetic(PopBlanks(ts)))) == Tidy(Parse(Synthetic(ts)))
  {
    hide Parse, Tidy;
    if ts != [] && ts[|ts| - 1] == EMPTY_LINE {
      var shorter := ts[..|ts| - 1];
      PoppedParse(shorter);
      ParseBlankAtEnd(Synthetic(shorter), Line(EMPTY_LINE, 0));
      assert Synthetic(ts) == Synthetic(shorter) + [Line(EMPTY_LINE, 0)];
    }
  }

  // ----- the pieces of a rendered document -----

  /** A subsection's lines with the blank line that follows it, not the one before. */
  function SubChunk(b: TidySub): (r: seq<Line>)
    requires TidySubFits(b)
    ensures IsChunk(AtHeading, r) && Free(AtRelease, r)
  {
    var r := Synthetic([HeadingLine(b.title), EMPTY_LINE] + b.lines + [EMPTY_LINE]);
    assert forall l :: l in r ==> l.text in [HeadingLine(b.title), EMPTY_LINE] + b.lines + [EMPTY_LINE];
    assert forall l :: l in r[1..] ==> l.text in [EMPTY_LINE] + b.lines + [EMPTY_LINE];
    r
  }

  function SubChunks(subs: seq<TidySub>): (r: seq<seq<Line>>)
    requires forall b :: b in subs ==> TidySubFits(b)
    ensures |r| == |subs| && forall i :: 0 <= i < |subs| ==> subs[i] in subs && r[i] == SubChunk(subs[i])
    ensures AreChunks(AtHeading, r)
  {
    seq(|subs|, i requires 0 <= i < |subs| => assert subs[i] in subs; SubChunk(subs[i]))
  }

  /** Blank lines before each subsection and one at the end, or one first and one after each. */
  lemma {:induction false} Rotated(subs: seq<TidySub>)
    requires forall b :: b in subs ==> TidySubFits(b)
    ensures Synthetic(SubsText(subs) + [EMPTY_LINE]) == Synthetic([EMPTY_LINE]) + Flatten(SubChunks(subs))
    ensures Free(AtRelease, Flatten(SubChunks(subs)))
  {
    hide Trim, TidySubFits, IsChunk, Is, SubsText, Flatten, SubText, SubChunk;
    if subs == [] {
      FlattenCons<Line>([], []);
      NoSubsText();
      NoSubsTidy();
      assert SubChunks(subs) == [];
    } else {
      var b, rest := subs[0], subs[1..];
      assert b in subs;
      Rotated(rest);
      SubsTextStep(subs);
      assert SubChunks(subs) == [SubChunk(b)] + SubChunks(rest);
      FlattenCons(SubChunk(b), SubChunks(rest));
      assert Synthetic(SubText(b) + SubsText(rest) + [EMPTY_LINE])
          == Synthetic(SubText(b)) + Synthetic(SubsText(rest) + [EMPTY_LINE]);
      OneRotated(b);
      Regroup(Synthetic(SubText(b)), Synthetic([EMPTY_LINE]), SubChunk(b), Flatten(SubChunks(rest)));
    }
  }

  lemma {:induction false} SubsTextStep(subs: seq<TidySub>)
    requires subs != []
    ensures SubsText(subs) == SubText(subs[0]) + SubsText(subs[1..])
  {
  }

  lemma {:induction false} OneRotated(b: TidySub)
    requires TidySubFits(b)
    ensures Synthetic(SubText(b)) + Synthetic([EMPTY_LINE]) == Synthetic([EMPTY_LINE]) + SubChunk(b)
  {
    hide Trim;
  }

  lemma {:induction false} Regroup(before: seq<Line>, blank: seq<Line>, c: seq<Line>, rest: seq<Line>)
    requires before + blank == blank + c
    ensures before + (blank + rest) == blank + (c + rest)
  {
    assert before + (blank + rest) == (before + blank) + rest;
    assert blank + (c + rest) == (blank + c) + rest;
  }

  lemma {:induction false} SubsBack(subs: seq<TidySub>)
    requires forall b :: b in subs ==> TidySubFits(b)
    ensures TidySubs(SubsOf(SubChunks(subs))) == subs
  {
    hide Trim, TidySubFits, SubChunk, TidySubs, TidySubOf, IsChunk;
    if subs == [] {
      assert SubsOf(SubChunks(subs)) == [];
      NoSubsTidy();
    } else {
      var b, rest := subs[0], subs[1..];
      assert b in subs;
      SubsBack(rest);
      TidySubsStep(SubsOf(SubChunks(subs)));
      assert SubsOf(SubChunks(subs))[1..] == SubsOf(SubChunks(rest));
      SubBack(b);
      assert subs == [b] + rest;
    }
  }

  lemma {:induction false} NoSubsTidy()
    ensures TidySubs([]) == []
  {
  }

  lemma {:induction false} SubBack(b: TidySub)
    requires TidySubFits(b)
    ensures TidySubOf(SubOf(SubChunk(b))) == [b]
  {
    hide Trim;
    assert Texts(SubChunk(b)[1..]) == [EMPTY_LINE] + b.lines + [EMPTY_LINE];
    TrimEnds(b.lines);
    TrimBetween([EMPTY_LINE], b.lines, [EMPTY_LINE]);
  }

  lemma {:induction false} TrimEnds(ts: seq<Text>)
    requires Trim(ts) == ts
    ensures ts != [] ==> !ts[0].Blank? && !ts[|ts| - 1].Blank?
  {
    hide TrimFront, TrimBack;
  }

  lemma {:induction false} SectionBack(s: TidySection)
    requires TidySectionFits(s)
    ensures IsChunk(AtRelease, Synthetic(SectionText(s)))
    ensures TidySectionOf(SectionOf(Synthetic(SectionText(s)))) == s
  {
    hide Trim, Chunks, Lead, SubsText, TidySubs, TidySubFits, Flatten;
    var c := Synthetic(SectionText(s));
    var lead := Synthetic(LeadText(s.lead) + [EMPTY_LINE]);
    var subs := SubChunks(s.subs);
    Rotated(s.subs);
    var body := c[1..];
    assert body == Synthetic(LeadText(s.lead)) + Synthetic(SubsText(s.subs) + [EMPTY_LINE]);
    assert body == lead + Flatten(subs);
    assert forall l :: l in lead ==> l.text == EMPTY_LINE || l.text in s.lead;
    ChunksOf(AtHeading, lead, subs);
    SubsBack(s.subs);
    TrimEnds(s.lead);
    if s.lead == [] {
      assert Texts(lead) == [] + [] + [EMPTY_LINE];
      TrimBetween([], [], [EMPTY_LINE]);
    } else {
      assert Texts(lead) == [EMPTY_LINE] + s.lead + [EMPTY_LINE];
      TrimBetween([EMPTY_LINE], s.lead, [EMPTY_LINE]);
    }
  }

  function SectionChunks(ss: seq<TidySection>): (r: seq<seq<Line>>)
    ensures |r| == |ss| && forall i :: 0 <= i < |ss| ==> r[i] == Synthetic(SectionText(ss[i]))
  {
    seq(|ss|, i requires 0 <= i < |ss| => Synthetic(SectionText(ss[i])))
  }

  lemma {:induction false} SectionsFlat(ss: seq<TidySection>)
    ensures Synthetic(SectionsText(ss)) == Flatten(SectionChunks(ss))
  {
    hide SectionText;
    if ss != [] {
      SectionsFlat(ss[1..]);
      assert SectionChunks(ss)[1..] == SectionChunks(ss[1..]);
    }
  }

  lemma {:induction false} UnpoppedBack(t: TidyDoc)
    requires TidyFits(t)
    ensures Tidy(Parse(Synthetic(PrefixText(t.prefix) + SectionsText(t.sections)))) == t
  {
    hide Trim, Chunks, Lead, SectionText, SectionsText, TidySectionFits, TidySectionOf, SectionOf, Flatten;
    var prefix, cs := Synthetic(PrefixText(t.prefix)), SectionChunks(t.sections);
    SectionsFlat(t.sections);
    assert Synthetic(PrefixText(t.prefix) + SectionsText(t.sections)) == prefix + Flatten(cs);
    assert forall l :: l in prefix ==> l.text == EMPTY_LINE || l.text in t.prefix;
    forall i | 0 <= i < |cs|
      ensures IsChunk(AtRelease, cs[i]) && TidySectionOf(SectionOf(cs[i])) == t.sections[i]
    {
      assert t.sections[i] in t.sections;
      SectionBack(t.sections[i]);
    }
    assert AreChunks(AtRelease, cs);
    ChunksOf(AtRelease, prefix, cs);
    assert TidySections(SectionsOf(cs)) == t.sections;
    TrimEnds(t.prefix);
    if t.prefix == [] {
      assert Texts(prefix) == [] + [] + [];
      TrimBetween([], [], []);
    } else {
      assert Texts(prefix) == [] + t.prefix + [EMPTY_LINE];
      TrimBetween([], t.prefix, [EMPTY_LINE]);
    }
  }

  /** Parsing the rendered file gives the document back. */
  lemma {:induction false} RenderThenParse(doc: Doc, file: seq<Line>)
    requires Fits(doc) && Texts(file) == Rendered(Tidy(doc))
    ensures Tidy(Parse(file)) == Tidy(doc)
  {
    hide Fits, Tidy, Parse, TidyFits, PrefixText, SectionsText, PopBlanks;
    var t := Tidy(doc);
    TidyDocFits(doc);
    var whole := PrefixText(t.prefix) + SectionsText(t.sections);
    UnpoppedBack(t);
    PoppedParse(whole);
    ParsesByText(file, Synthetic(Rendered(t)));
    if PopBlanks(whole) == [] {
      ParseBlankAtEnd([], Line(EMPTY_LINE, 0));
      assert Synthetic([EMPTY_LINE]) == [] + [Line(EMPTY_LINE, 0)] && Synthetic([]) == [];
    }
  }

  lemma {:induction false} LinesFit(m: Mark, outer: Mark, ls: seq<Line>)
    requires Free(outer, ls)
    ensures Free(outer, Lead(m, ls)) && forall c :: c in Chunks(m, ls) ==> Free(outer, c)
  {
    hide Chunks;
    ChunksRejoin(m, ls);
    forall c | c in Chunks(m, ls) ensures Free(outer, c) {
      InFlatten(Chunks(m, ls), c);
    }
  }

  lemma {:induction false} InFlatten(cs: seq<seq<Line>>, c: seq<Line>)
    requires c in cs
    ensures forall l :: l in c ==> l in Flatten(cs)
  {
    if c != cs[0] {
      InFlatten(cs[1..], c);
    }
  }

  lemma {:induction false} BodyFits(m: Mark, outer: Mark, c: seq<Line>)
    requires Free(outer, c)
    ensures Free(outer, if c == [] then [] else c[1..])
  {
    assert c != [] ==> forall l :: l in c[1..] ==> l in c;
  }

  lemma {:induction false} ParsedSectionFits(c: seq<Line>)
    requires IsChunk(AtRelease, c)
    ensures SectionFits(SectionOf(c))
  {
    hide Chunks, Lead, Free;
    var body := c[1..];
    assert Free(AtRelease, body);
    LinesFit(AtHeading, AtRelease, body);
    var subs := Chunks(AtHeading, body);
    forall b | b in SubsOf(subs) ensures SubFits(b) {
      var j :| 0 <= j < |subs| && SubsOf(subs)[j] == b;
      assert subs[j] in subs;
      BodyFits(AtHeading, AtRelease, subs[j]);
    }
  }

  /** Whatever was parsed fits. */
  lemma {:induction false} ParsedFits(file: seq<Line>)
    ensures Fits(Parse(file))
  {
    hide Chunks, Lead, SectionOf, SectionFits, Free;
    var cs := Chunks(AtRelease, file);
    assert Free(AtRelease, Lead(AtRelease, file));
    forall s | s in SectionsOf(cs) ensures SectionFits(s) {
      var i :| 0 <= i < |cs| && SectionsOf(cs)[i] == s;
      assert cs[i] in cs;
      ParsedSectionFits(cs[i]);
    }
  }

  /** One pass of parsing and rendering settles a file: a second pass changes nothing. */
  lemma {:induction false} RenderAfterParseSettles(file: seq<Line>, again: seq<Line>)
    requires Texts(again) == Rendered(Tidy(Parse(file)))
    ensures Rendered(Tidy(Parse(again))) == Texts(again)
  {
    hide Tidy, Parse, Rendered, Fits;
    ParsedFits(file);
    RenderThenParse(Parse(file), again);
  }
}
