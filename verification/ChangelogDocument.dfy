/**
 The changelog as a document: parsing it, rendering it, and why the two fit together.
 */
module ChangelogDocument {
  import opened ChangelogText

  datatype Sub = Sub(title: string, lines: seq<Line>)

  datatype Section = Section(title: string, raw: string, lead: seq<Line>, subs: seq<Sub>)

  datatype Doc = Doc(prefix: seq<Line>, sections: seq<Section>)

  // ----- parsing -----

  function SubOf(c: seq<Line>): Sub
    requires IsChunk(AtHeading, c)
  {
    Sub(c[0].text.title, c[1..])
  }

  function SubsOf(cs: seq<seq<Line>>): (r: seq<Sub>)
    requires AreChunks(AtHeading, cs)
    ensures |r| == |cs| && forall i :: 0 <= i < |cs| ==> cs[i] in cs && r[i] == SubOf(cs[i])
  {
    seq(|cs|, i requires 0 <= i < |cs| => assert cs[i] in cs; SubOf(cs[i]))
  }

  function SectionOf(c: seq<Line>): Section
    requires IsChunk(AtRelease, c)
  {
    Section(c[0].text.title, c[0].text.raw, Lead(AtHeading, c[1..]), SubsOf(Chunks(AtHeading, c[1..])))
  }

  function SectionsOf(cs: seq<seq<Line>>): (r: seq<Section>)
    requires AreChunks(AtRelease, cs)
    ensures |r| == |cs| && forall i :: 0 <= i < |cs| ==> cs[i] in cs && r[i] == SectionOf(cs[i])
  {
    seq(|cs|, i requires 0 <= i < |cs| => assert cs[i] in cs; SectionOf(cs[i]))
  }

  function Parse(ls: seq<Line>): Doc {
    Doc(Lead(AtRelease, ls), SectionsOf(Chunks(AtRelease, ls)))
  }

  /** The inner loops of the parser: collect lines up to the next mark. */
  method UpTo(m: Mark, ls: seq<Line>, from: nat) returns (taken: seq<Line>, index: nat)
    requires from <= |ls|
    ensures from <= index <= |ls| && taken == ls[from..index] && Free(m, taken)
    ensures index < |ls| ==> Is(m, ls[index].text)
  {
    taken, index := [], from;
    while index < |ls| && !Is(m, ls[index].text)
      invariant from <= index <= |ls| && taken == ls[from..index] && Free(m, taken)
    {
      taken := taken + [ls[index]];
      index := index + 1;
    }
  }

  lemma {:induction false} Leading(m: Mark, ls: seq<Line>, index: nat)
    requires index <= |ls| && Free(m, ls[..index]) && (index < |ls| ==> Is(m, ls[index].text))
    ensures Lead(m, ls) == ls[..index] && Chunks(m, ls) == Chunks(m, ls[index..])
  {
    hide Chunks;
    ChunksAfter(m, ls[..index], ls[index..]);
    assert ls == ls[..index] + ls[index..] && ls[..index] + [] == ls[..index];
  }

  lemma {:induction false} NextChunk(m: Mark, ls: seq<Line>, start: nat, end: nat)
    requires start < end <= |ls| && Is(m, ls[start].text) && Free(m, ls[start + 1..end])
    requires end < |ls| ==> Is(m, ls[end].text)
    ensures IsChunk(m, [ls[start]] + ls[start + 1..end])
    ensures Chunks(m, ls[start..]) == [[ls[start]] + ls[start + 1..end]] + Chunks(m, ls[end..])
  {
    hide Chunks;
    assert forall i :: start < i < end ==> ls[i] == ls[start + 1..end][i - start - 1];
    TakeChunk(m, ls, start, end);
    assert ls[start..end] == [ls[start]] + ls[start + 1..end];
  }

  /** The index loop over one release: leading lines, then one subsection per heading. */
  method ParseReleaseSection(heading: Line, body: seq<Line>) returns (s: Section)
    requires IsChunk(AtRelease, [heading] + body)
    ensures s == SectionOf([heading] + body)
  {
    hide Chunks, Lead;
    assert ([heading] + body)[1..] == body;
    var lead, index := UpTo(AtHeading, body, 0);
    assert body[0..index] == body[..index];
    Leading(AtHeading, body, index);
    var subs: seq<Sub> := [];
    ghost var found: seq<seq<Line>> := [];
    while index < |body|
      invariant 0 <= index <= |body| && (index < |body| ==> Is(AtHeading, body[index].text))
      invariant AreChunks(AtHeading, found) && subs == SubsOf(found)
      invariant Chunks(AtHeading, body) == found + Chunks(AtHeading, body[index..])
    {
      var start := index;
      var lines;
      lines, index := UpTo(AtHeading, body, start + 1);
      NextChunk(AtHeading, body, start, index);
      found := found + [[body[start]] + lines];
      subs := subs + [Sub(body[start].text.title, lines)];
    }
    NoChunks(AtHeading);
    assert body[index..] == [] && found == Chunks(AtHeading, body);
    s := Section(heading.text.title, heading.text.raw, lead, subs);
  }

  method ParseChangelog(ls: seq<Line>) returns (doc: Doc)
    ensures doc == Parse(ls)
  {
    hide Chunks, Lead, SectionOf;
    var prefix, index := UpTo(AtRelease, ls, 0);
    assert ls[0..index] == ls[..index];
    Leading(AtRelease, ls, index);
    var sections: seq<Section> := [];
    ghost var found: seq<seq<Line>> := [];
    while index < |ls|
      invariant 0 <= index <= |ls| && (index < |ls| ==> Is(AtRelease, ls[index].text))
      invariant AreChunks(AtRelease, found) && sections == SectionsOf(found)
      invariant Chunks(AtRelease, ls) == found + Chunks(AtRelease, ls[index..])
    {
      var start := index;
      var body;
      body, index := UpTo(AtRelease, ls, start + 1);
      NextChunk(AtRelease, ls, start, index);
      found := found + [[ls[start]] + body];
      var section := ParseReleaseSection(ls[start], body);
      sections := sections + [section];
    }
    NoChunks(AtRelease);
    assert ls[index..] == [] && found == Chunks(AtRelease, ls);
    doc := Doc(prefix, sections);
  }

  // ----- what rendering keeps -----

  datatype TidySub = TidySub(title: string, lines: seq<Text>)

  datatype TidySection = TidySection(title: string, raw: string, lead: seq<Text>, subs: seq<TidySub>)

  /** A document up to blank lines at the edges of its parts, and empty subsections. */
  datatype TidyDoc = TidyDoc(prefix: seq<Text>, sections: seq<TidySection>)

  /** An empty subsection leaves nothing. */
  function TidySubOf(b: Sub): (r: seq<TidySub>)
    ensures |r| <= 1
  {
    var lines := Trim(Texts(b.lines));
    if lines == [] then [] else [TidySub(b.title, lines)]
  }

  function TidySubs(subs: seq<Sub>): seq<TidySub> {
    if subs == [] then [] else TidySubOf(subs[0]) + TidySubs(subs[1..])
  }

  lemma {:induction false} TidySubsStep(subs: seq<Sub>)
    requires subs != []
    ensures TidySubs(subs) == TidySubOf(subs[0]) + TidySubs(subs[1..])
  {
  }

  function TidySectionOf(s: Section): TidySection {
    TidySection(s.title, s.raw, Trim(Texts(s.lead)), TidySubs(s.subs))
  }

  function TidySections(ss: seq<Section>): (r: seq<TidySection>)
    ensures |r| == |ss| && forall i :: 0 <= i < |ss| ==> r[i] == TidySectionOf(ss[i])
  {
    seq(|ss|, i requires 0 <= i < |ss| => TidySectionOf(ss[i]))
  }

  function Tidy(doc: Doc): TidyDoc {
    TidyDoc(Trim(Texts(doc.prefix)), TidySections(doc.sections))
  }

  // ----- rendering -----

  function HeadingLine(title: string): Text { Heading(title, "### " + title) }

  function SubText(b: TidySub): seq<Text> {
    [EMPTY_LINE, HeadingLine(b.title), EMPTY_LINE] + b.lines
  }

  function SubsText(subs: seq<TidySub>): seq<Text> {
    if subs == [] then [] else SubText(subs[0]) + SubsText(subs[1..])
  }

  function LeadText(lead: seq<Text>): seq<Text> {
    if lead == [] then [] else [EMPTY_LINE] + lead
  }

  function SectionText(s: TidySection): seq<Text> {
    [Release(s.title, s.raw)] + LeadText(s.lead) + SubsText(s.subs) + [EMPTY_LINE]
  }

  function SectionsText(ss: seq<TidySection>): seq<Text> {
    if ss == [] then [] else SectionText(ss[0]) + SectionsText(ss[1..])
  }

  function PrefixText(prefix: seq<Text>): seq<Text> {
    if prefix == [] then [] else prefix + [EMPTY_LINE]
  }

  function PopBlanks(ts: seq<Text>): (r: seq<Text>)
    ensures r <= ts
  {
    if ts != [] && ts[|ts| - 1] == EMPTY_LINE then PopBlanks(ts[..|ts| - 1]) else ts
  }

  /** The lines of the written file; a file is never without a line, since it ends in a newline. */
  function FileOf(ts: seq<Text>): seq<Text> { if ts == [] then [EMPTY_LINE] else ts }

  function Rendered(t: TidyDoc): seq<Text> {
    FileOf(PopBlanks(PrefixText(t.prefix) + SectionsText(t.sections)))
  }

  lemma {:induction false} TidySubsEnd(subs: seq<Sub>, b: Sub)
    ensures TidySubs(subs + [b]) == TidySubs(subs) + TidySubOf(b)
  {
    hide TidySubOf;
    if subs == [] {
      assert [] + [b] == [b] && [b][1..] == [] && TidySubs([]) == [];
    } else {
      assert (subs + [b])[1..] == subs[1..] + [b];
      TidySubsEnd(subs[1..], b);
    }
  }

  lemma {:induction false} SectionsTextEnd(ss: seq<TidySection>, s: TidySection)
    ensures SectionsText(ss + [s]) == SectionsText(ss) + SectionText(s)
  {
    if ss == [] {
      assert ss + [s] == [s] && [s][1..] == [];
      assert SectionsText([s]) == SectionText(s) + [];
    } else {
      assert (ss + [s])[1..] == ss[1..] + [s];
      SectionsTextEnd(ss[1..], s);
    }
  }

  lemma {:induction false} OneSub(b: Sub)
    ensures SubsText(TidySubOf(b)) == var lines := Trim(Texts(b.lines));
      if lines == [] then [] else SubText(TidySub(b.title, lines))
  {
    hide Trim;
    var t := TidySubOf(b);
    if t != [] {
      assert t[1..] == [] && SubsText([]) == [];
    }
  }

  lemma {:induction false} SubsTextAppend(a: seq<TidySub>, b: seq<TidySub>)
    ensures SubsText(a + b) == SubsText(a) + SubsText(b)
  {
    if a == [] {
      assert a + b == b;
    } else {
      assert (a + b)[1..] == a[1..] + b;
      SubsTextAppend(a[1..], b);
    }
  }

  /** The body of the loop over sections. */
  method RenderSection(section: Section, output: seq<Text>) returns (r: seq<Text>)
    ensures r == output + SectionText(TidySectionOf(section))
  {
    hide SubsText, TidySubs, Trim, SubText;
    var subs := section.subs;
    r := output + [Release(section.title, section.raw)];
    var lead := TrimBlankLines(Texts(section.lead));
    if |lead| > 0 { r := r + [EMPTY_LINE] + lead; }
    ghost var start := output + [Release(section.title, section.raw)] + LeadText(lead);
    assert r == start;
    r := RenderSubs(subs, r);
    r := r + [EMPTY_LINE];
    assert r == output + ([Release(section.title, section.raw)] + LeadText(lead)
        + SubsText(TidySubs(subs)) + [EMPTY_LINE]);
  }

  method RenderSubs(subs: seq<Sub>, output: seq<Text>) returns (r: seq<Text>)
    ensures r == output + SubsText(TidySubs(subs))
  {
    hide SubsText, TidySubs, Trim, TidySubOf;
    r := output;
    NoSubsText();
    for i := 0 to |subs|
      invariant r == output + SubsText(TidySubs(subs[..i]))
    {
      var b := subs[i];
      OneMoreSub(subs, i);
      OneSub(b);
      var lines := TrimBlankLines(Texts(b.lines));
      if |lines| > 0 {
        r := r + ([EMPTY_LINE, HeadingLine(b.title), EMPTY_LINE] + lines);
      }
    }
    assert subs[..|subs|] == subs;
  }

  lemma {:induction false} OneMoreSub(subs: seq<Sub>, i: nat)
    requires i < |subs|
    ensures SubsText(TidySubs(subs[..i + 1])) == SubsText(TidySubs(subs[..i])) + SubsText(TidySubOf(subs[i]))
  {
    hide SubsText, TidySubs, TidySubOf;
    assert subs[..i + 1] == subs[..i] + [subs[i]];
    TidySubsEnd(subs[..i], subs[i]);
    SubsTextAppend(TidySubs(subs[..i]), TidySubOf(subs[i]));
  }

  lemma {:induction false} NoSubsText()
    ensures SubsText(TidySubs([])) == []
  {
  }

  lemma {:induction false} NoSectionsText()
    ensures SectionsText(TidySections([])) == []
  {
  }

  method RenderChangelog(doc: Doc) returns (r: seq<Text>)
    ensures r == Rendered(Tidy(doc))
  {
    hide SectionText, SectionsText, TidySectionOf, Trim;
    var output: seq<Text> := [];
    var prefix := TrimBlankLines(Texts(doc.prefix));
    if |prefix| > 0 { output := output + prefix + [EMPTY_LINE]; }
    NoSectionsText();
    var sections := doc.sections;
    for i := 0 to |sections|
      invariant output == PrefixText(prefix) + SectionsText(TidySections(sections[..i]))
    {
      output := RenderSection(sections[i], output);
      SectionsTextEnd(TidySections(sections[..i]), TidySectionOf(sections[i]));
      assert TidySections(sections[..i + 1]) == TidySections(sections[..i]) + [TidySectionOf(sections[i])];
    }
    assert sections[..|sections|] == sections;
    r := PopTrailing(output);
    r := FileOf(r);
  }

  method PopTrailing(output: seq<Text>) returns (r: seq<Text>)
    ensures r == PopBlanks(output)
  {
    r := output;
    while |r| > 0 && r[|r| - 1] == EMPTY_LINE
      invariant PopBlanks(r) == PopBlanks(output)
    {
      r := r[..|r| - 1];
    }
  }
}
