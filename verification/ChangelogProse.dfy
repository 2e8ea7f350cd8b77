/**
 What becomes of the text that is no list item: headings, leading lines, and the
 lines in front of the first item of a subsection.
 */
module ChangelogProse {
  import opened ChangelogText
  import opened ChangelogItems
  import opened ChangelogMerge
  import opened ChangelogDocument
  import opened ChangelogSections
  import opened ChangelogSort
  import opened StableSorting
  import opened ChangelogNormal
  import opened ChangelogHeadings
  import opened ChangelogPromotion
  import opened ChangelogFixer
  import opened ChangelogRoundTrip
  import opened ChangelogPlain
  import opened ChangelogTheorems

  // ----- sorting does not look at what normalizing changes -----

  lemma {:induction false} NormalizedEnd(ss: seq<Section>, s: Section)
    ensures NormalizedAll(ss + [s]) == NormalizedAll(ss) + [Normalized(s)]
  {
    hide Normalized;
  }

  lemma {:induction false} NormalizedAppend(a: seq<Section>, b: seq<Section>)
    ensures NormalizedAll(a + b) == NormalizedAll(a) + NormalizedAll(b)
  {
    hide Normalized;
  }

  lemma {:induction false} InsertNormalized(ss: seq<Section>, s: Section, version: string -> Version)
    ensures Insert(NormalizedAll(ss), Normalized(s), TitleAfter(version))
         == NormalizedAll(Insert(ss, s, TitleAfter(version)))
  {
    hide Normalized, CompareVersionTitlesDesc;
    var after, n := TitleAfter(version), |ss| - 1;
    NormalizedEnd(ss, s);
    if ss != [] {
      NormalizedTitle(ss[n]);
      NormalizedTitle(s);
      assert NormalizedAll(ss)[..n] == NormalizedAll(ss[..n]);
      if after(ss[n], s) {
        InsertNormalized(ss[..n], s, version);
        NormalizedEnd(Insert(ss[..n], s, after), ss[n]);
      }
    }
  }

  lemma {:induction false} SortNormalized(ss: seq<Section>, version: string -> Version)
    ensures StableSort(NormalizedAll(ss), TitleAfter(version)) == NormalizedAll(StableSort(ss, TitleAfter(version)))
  {
    hide Normalized, Insert;
    if ss != [] {
      var n := |ss| - 1;
      assert NormalizedAll(ss)[..n] == NormalizedAll(ss[..n]);
      SortNormalized(ss[..n], version);
      InsertNormalized(StableSort(ss[..n], TitleAfter(version)), ss[n], version);
    }
  }

  lemma {:induction false} SelectNormal(ss: seq<Section>, unreleased: bool)
    ensures Select(NormalizedAll(ss), unreleased) == NormalizedAll(Select(ss, unreleased))
  {
    hide Normalized;
    if ss != [] {
      var s, rest := ss[0], ss[1..];
      assert ss == [s] + rest && NormalizedAll(ss)[1..] == NormalizedAll(rest);
      SelectNormal(rest, unreleased);
      NormalizedTitle(s);
      if (s.title == UNRELEASED) == unreleased {
        NormalizedFront(s, Select(rest, unreleased));
      } else {
        assert [] + Select(rest, unreleased) == Select(rest, unreleased);
      }
    }
  }

  lemma {:induction false} SortedNormal(ss: seq<Section>, version: string -> Version)
    ensures SortedSections(NormalizedAll(ss), version) == NormalizedAll(SortedSections(ss, version))
  {
    hide Normalized, StableSort, Select;
    SelectNormal(ss, true);
    SelectNormal(ss, false);
    SortNormalized(Select(ss, false), version);
    NormalizedAppend(Select(ss, true), StableSort(Select(ss, false), TitleAfter(version)));
  }

  // ----- the written file -----

  /** The sections before their subsections are merged, in the order they are written in. */
  function PromotedSections(file: seq<Text>, lines: set<nat>, history: set<ItemKey>, version: string -> Version)
    : seq<Section>
  {
    SortedSections(Promoted(StartsAt(lines), Dropped(SectionsIn(file), history)), version)
  }

  /** Lines outside of items, title by title. */
  ghost predicate SameLoose(a: Section, b: Section) {
    forall title :: LooseUnder(a.subs, title) == LooseUnder(b.subs, title)
  }

  lemma {:induction false} TidySameText(a: Section, b: Section)
    requires TidySectionOf(a) == TidySectionOf(b)
    ensures SameText(a, b) && SameLoose(a, b)
    ensures Untidy(TidySubs(a.subs)) == Untidy(TidySubs(b.subs))
  {
    hide TidySubs, Trim, Gather, Only, SubsBag;
    forall title
      ensures Under(a.subs, title) == Under(b.subs, title) && LooseUnder(a.subs, title) == LooseUnder(b.subs, title)
    {
      TidyKeeps(a.subs, title);
      TidyKeeps(b.subs, title);
    }
  }

  lemma {:induction false} NormalizedLooseOf(a: Section, s: Section)
    requires SameLoose(a, Normalized(s))
    ensures SameLoose(a, s) <==> NoProseMerge(s.subs)
  {
    hide Gather, Normalized, NoProseMerge;
    NormalizedLoose(s);
    if SameLoose(a, s) {
      forall title ensures LooseUnder(Normalized(s).subs, title) == LooseUnder(s.subs, title) {
        assert LooseUnder(a.subs, title) == LooseUnder(s.subs, title);
      }
    }
  }

  lemma {:induction false} WrittenSection(a: Section, s: Section)
    requires TidySectionOf(a) == TidySectionOf(Normalized(s))
    ensures SameText(a, s) && (SameLoose(a, s) <==> NoProseMerge(s.subs))
  {
    hide Gather, Normalized, NoProseMerge, TidySectionOf, Trim;
    TidySameText(a, Normalized(s));
    NormalizedText(s);
    NormalizedLooseOf(a, s);
    forall title ensures Under(a.subs, title) == Under(s.subs, title) {
      assert Under(a.subs, title) == Under(Normalized(s).subs, title);
    }
  }

  /** Each title heads one subsection that is not blank, and does so exactly when it had lines under it before. */
  ghost predicate OneEach(a: Section, s: Section) {
    var ts := TidySubs(a.subs);
    && (forall x, y :: 0 <= x < y < |ts| ==> ts[x].title != ts[y].title)
    && (forall title :: (exists x :: 0 <= x < |ts| && ts[x].title == title) <==> Under(s.subs, title) != [])
  }

  lemma {:induction false} TidySolid(subs: seq<Sub>)
    requires AllSolid(subs)
    ensures |TidySubs(subs)| == |subs| && forall i :: 0 <= i < |subs| ==> TidySubs(subs)[i].title == subs[i].title
  {
    hide Trim, AllBlank;
    if subs != [] {
      var rest := subs[1..];
      forall i | 0 <= i < |rest| ensures !AllBlank(Texts(rest[i].lines)) { assert rest[i] == subs[i + 1]; }
      TidySolid(rest);
      TrimIsEmpty(Texts(subs[0].lines));
    }
  }

  lemma {:induction false} WrittenTitles(a: Section, s: Section)
    requires TidySectionOf(a) == TidySectionOf(Normalized(s))
    ensures OneEach(a, s)
  {
    hide Gather, Normalized, TidySubs, Trim, AllSolid;
    var subs, ts := Normalized(s).subs, TidySubs(a.subs);
    NormalizedShape(s);
    NormalizedTitles(s, "");
    TidySolid(subs);
    forall title
      ensures (exists x :: 0 <= x < |ts| && ts[x].title == title) <==> Under(s.subs, title) != []
    {
      NormalizedTitles(s, title);
      if i :| 0 <= i < |subs| && subs[i].title == title { assert ts[i].title == title; }
    }
  }

  /**
   The written file against the sections before merging, whatever prose is merged: prefix, headings and leading
   lines are the same up to blank edges, under each title stand the same lines in the same order, under one heading
   of the title if there are any, and no line joins or leaves an item exactly where no prose is merged behind one.
   */
  lemma {:induction false} WrittenText(file: seq<Text>, lines: set<nat>, history: set<ItemKey>,
    version: string -> Version)
    ensures var before, after := Parse(Lines(file)), Parse(Lines(FixedContent(file, lines, history, version)));
      var ss := PromotedSections(file, lines, history, version);
      && Trim(Texts(after.prefix)) == Trim(Texts(before.prefix)) && |after.sections| == |ss|
      && forall i :: 0 <= i < |ss| ==>
           && SameText(after.sections[i], ss[i]) && OneEach(after.sections[i], ss[i])
           && (SameLoose(after.sections[i], ss[i]) <==> NoProseMerge(ss[i].subs))
  {
    hide Fits, Parse, Rendered, Increasing, Trim, Normalized, SameText, SameLoose, OneEach, NoProseMerge, TidySectionOf,
         SortedSections, Promoted, Dropped;
    var ss := PromotedSections(file, lines, history, version);
    var doc := FixedDoc(file, lines, history, version);
    var written := Lines(FixedContent(file, lines, history, version));
    ParsedFits(Lines(file));
    FixedFits(Parse(Lines(file)), history, lines, version);
    RenderThenParse(doc, written);
    SortedNormal(Promoted(StartsAt(lines), Dropped(SectionsIn(file), history)), version);
    var after := Parse(written).sections;
    assert doc.sections == NormalizedAll(ss) && TidySections(after) == TidySections(NormalizedAll(ss));
    forall i | 0 <= i < |ss|
      ensures SameText(after[i], ss[i]) && OneEach(after[i], ss[i])
      ensures SameLoose(after[i], ss[i]) <==> NoProseMerge(ss[i].subs)
    {
      assert TidySections(after)[i] == TidySectionOf(after[i]) == TidySectionOf(Normalized(ss[i]));
      WrittenSection(after[i], ss[i]);
      WrittenTitles(after[i], ss[i]);
    }
  }

  // ----- before merging -----

  /** The same heading, leading lines, and lines outside of items, title by title. */
  ghost predicate SameProse(a: Section, b: Section) { HeadOf(a) == HeadOf(b) && SameLoose(a, b) }

  lemma {:induction false} LeftProse(p: Pick, s: Section)
    ensures SameProse(Left(p, s), s) && SameProse(ChangelogSections.Without(p, s), s)
  {
    hide Gather, RestSubs;
    forall title ensures LooseUnder(RestSubs(p, s.subs), title) == LooseUnder(s.subs, title) {
      RestLoose(p, s.subs, title);
    }
  }

  /** Dropping leaves all prose of all sections. */
  lemma {:induction false} DroppedProse(ss: seq<Section>, history: set<ItemKey>)
    ensures |Dropped(ss, history)| == |ss|
    ensures forall i :: 0 <= i < |ss| ==> SameProse(Dropped(ss, history)[i], ss[i])
  {
    hide Bag, Select, Gather, RestSubs;
    var u := Find(ss);
    if u >= 0 {
      LeftProse(HasKey((set k | k in Bag(Select(ss, false))) + history), ss[u]);
    }
  }

  lemma {:induction false} ReceivedProse(s: Section, moved: seq<Moved>)
    requires forall m :: m in moved ==> IsKey(m.key)
    ensures SameProse(Receive(s, moved), s)
    ensures forall m :: m in moved ==> Present(Receive(s, moved).subs, m)
  {
    hide Gather, AddAll, IsKey, Present;
    AddAllText(s.subs, moved);
  }

  /** A new section is made exactly when there is none and something moves. */
  predicate MakesNew(p: Pick, ss: seq<Section>) { Find(ss) < 0 && Taken(p, ss) != [] }

  /**
   Promotion leaves all prose of all sections; a new section in front has none. What moves stands under its own
   title in the first Unreleased section.
   */
  lemma {:induction false} PromotedProse(p: Pick, ss: seq<Section>)
    ensures var now, new' := Promoted(p, ss), if MakesNew(p, ss) then 1 else 0;
      && |now| == |ss| + new' && (new' == 1 ==> SameProse(now[0], NEW_UNRELEASED))
      && (forall i :: 0 <= i < |ss| ==> SameProse(now[i + new'], ss[i]))
      && (Taken(p, ss) != [] ==> Find(now) >= 0 && forall m :: m in Taken(p, ss) ==> Present(now[Find(now)].subs, m))
  {
    hide Gather, AddAll, IsKey, Present, Taken, Left, HeadOf, SameLoose;
    var lefts, u, moved := Lefts(p, ss), Find(ss), Taken(p, ss);
    LeftsBag(p, ss);
    forall i | 0 <= i < |ss| ensures SameProse(Left(p, ss[i]), ss[i]) { LeftProse(p, ss[i]); }
    var now := Promoted(p, ss);
    if u >= 0 {
      LeftUnreleased(p, ss, u);
      ReceivedProse(lefts[u], moved);
      ReceivedTitle(lefts[u], moved);
      FindIs(now, u);
    } else if moved != [] {
      ReceivedProse(NEW_UNRELEASED, moved);
      ReceivedTitle(NEW_UNRELEASED, moved);
      FindIs(now, 0);
    }
  }

  lemma {:induction false} ReceivedTitle(s: Section, moved: seq<Moved>)
    ensures Receive(s, moved).title == s.title
  {
  }

  lemma {:induction false} LeftUnreleased(p: Pick, ss: seq<Section>, u: nat)
    requires u < |ss| && u == Find(ss)
    ensures Left(p, ss[u]) == ss[u] && forall i :: 0 <= i < u ==> Left(p, ss[i]).title != UNRELEASED
  {
  }

  lemma {:induction false} FindIs(ss: seq<Section>, u: nat)
    requires u < |ss| && ss[u].title == UNRELEASED && forall i :: 0 <= i < u ==> ss[i].title != UNRELEASED
    ensures Find(ss) == u
  {
  }

  // ----- the file read against the file written -----

  /** What a function makes of each section, as often as it does. */
  function Tally<T>(ss: seq<Section>, f: Section -> T): multiset<T> {
    if ss == [] then multiset{} else multiset{f(ss[0])} + Tally(ss[1..], f)
  }

  lemma {:induction false} TallyAppend<T>(a: seq<Section>, b: seq<Section>, f: Section -> T)
    ensures Tally(a + b, f) == Tally(a, f) + Tally(b, f)
  {
    if a == [] {
      assert a + b == b;
    } else {
      assert (a + b)[1..] == a[1..] + b;
      TallyAppend(a[1..], b, f);
    }
  }

  lemma {:induction false} TallyPermuted<T>(a: seq<Section>, b: seq<Section>, f: Section -> T)
    requires multiset(a) == multiset(b)
    ensures Tally(a, f) == Tally(b, f)
  {
    hide Tally;
    if a == [] {
      assert |multiset(b)| == |b|;
    } else {
      var i := SameFirst(a, b);
      var x, front, back := a[0], b[..i], b[i + 1..];
      TallyPermuted(a[1..], front + back, f);
      assert a == [x] + a[1..];
      TallyAppend([x], a[1..], f);
      TallyAppend(front, [x] + back, f);
      TallyAppend([x], back, f);
      TallyAppend(front, back, f);
    }
  }

  lemma {:induction false} TallySame<T>(a: seq<Section>, b: seq<Section>, f: Section -> T)
    requires |a| == |b| && forall i :: 0 <= i < |a| ==> f(a[i]) == f(b[i])
    ensures Tally(a, f) == Tally(b, f)
  {
    if a != [] {
      assert forall i :: 0 <= i < |a| - 1 ==> a[1..][i] == a[i + 1] && b[1..][i] == b[i + 1];
      TallySame(a[1..], b[1..], f);
    }
  }

  lemma {:induction false} SortedPermutes(ss: seq<Section>, version: string -> Version)
    ensures multiset(SortedSections(ss, version)) == multiset(ss)
  {
    hide StableSort;
    SelectSplits(ss);
    SortKeeps(Select(ss, false), TitleAfter(version));
  }

  lemma {:induction false} SelectSplits(ss: seq<Section>)
    ensures multiset(Select(ss, true)) + multiset(Select(ss, false)) == multiset(ss)
  {
    if ss != [] {
      var rest := ss[1..];
      SelectSplits(rest);
      assert ss == [ss[0]] + rest;
      assert [] + Select(rest, true) == Select(rest, true) && [] + Select(rest, false) == Select(rest, false);
    }
  }

  /** A section by its heading, its leading lines, and by title its lines outside of items, as often as they occur. */
  datatype Outline = Outline(head: Head, loose: multiset<LooseLine>)

  function OutlineOf(s: Section): Outline { Outline(HeadOf(s), LooseBag(s.subs)) }

  lemma {:induction false} SameOutline(a: Section, b: Section)
    requires SameProse(a, b)
    ensures OutlineOf(a) == OutlineOf(b)
  {
    hide Gather, LooseBag, TitledBag, HeadOf;
    BagsByTitle(a.subs, b.subs);
  }

  lemma {:induction false} PromotedTally<T>(p: Pick, ss: seq<Section>, history: set<ItemKey>, f: Section -> T)
    requires forall a, b :: SameProse(a, b) ==> f(a) == f(b)
    ensures var dropped := Dropped(ss, history);
      Tally(Promoted(p, dropped), f)
        == Tally(ss, f) + (if MakesNew(p, dropped) then multiset{f(NEW_UNRELEASED)} else multiset{})
  {
    hide Dropped, Promoted, SameProse, Taken, Tally;
    var dropped := Dropped(ss, history);
    var now := Promoted(p, dropped);
    DroppedProse(ss, history);
    PromotedProse(p, dropped);
    TallySame(dropped, ss, f);
    if MakesNew(p, dropped) {
      var rest := now[1..];
      assert now == [now[0]] + rest && forall i :: 0 <= i < |ss| ==> rest[i] == now[i + 1];
      TallySame(rest, dropped, f);
      TallyAppend([now[0]], rest, f);
      TallyOne(now[0], f);
    } else {
      TallySame(now, dropped, f);
    }
  }

  lemma {:induction false} TallyOne<T>(s: Section, f: Section -> T)
    ensures Tally([s], f) == multiset{f(s)}
  {
    assert [s][1..] == [];
  }

  /**
   The written file has the sections of the file read, each with its heading and its leading lines, and one more
   with neither when something moves and there was no place for it; where no prose is merged behind an item, it has
   all lines outside of items as well, under their titles and as often.
   */
  lemma {:induction false} FileKeepsProse(file: seq<Text>, lines: set<nat>, history: set<ItemKey>,
    version: string -> Version)
    ensures var before, after := SectionsIn(file), SectionsIn(FixedContent(file, lines, history, version));
      var dropped := Dropped(before, history); var made := MakesNew(StartsAt(lines), dropped);
      && Tally(after, HeadOf)
         == Tally(before, HeadOf) + (if made then multiset{HeadOf(NEW_UNRELEASED)} else multiset{})
      && (NoProseMerges(Promoted(StartsAt(lines), dropped)) ==>
            Tally(after, OutlineOf)
            == Tally(before, OutlineOf) + (if made then multiset{OutlineOf(NEW_UNRELEASED)} else multiset{}))
  {
    hide Dropped, Promoted, Parse, FixedContent, SortedSections, Tally, SameLoose, HeadOf, LooseBag, Under,
         NoProseMerge, OneEach, MakesNew;
    var p, before := StartsAt(lines), SectionsIn(file);
    var promoted := Promoted(p, Dropped(before, history));
    var ss := PromotedSections(file, lines, history, version);
    var after := SectionsIn(FixedContent(file, lines, history, version));
    WrittenText(file, lines, history, version);
    SortedPermutes(promoted, version);
    PromotedTally(p, before, history, HeadOf);
    TallyPermuted(ss, promoted, HeadOf);
    TallySame(after, ss, HeadOf);
    if NoProseMerges(promoted) {
      forall a, b | SameProse(a, b) ensures OutlineOf(a) == OutlineOf(b) { SameOutline(a, b); }
      PromotedTally(p, before, history, OutlineOf);
      TallyPermuted(ss, promoted, OutlineOf);
      forall i | 0 <= i < |ss| ensures OutlineOf(after[i]) == OutlineOf(ss[i]) {
        assert ss[i] in multiset(promoted);
        SameOutline(after[i], ss[i]);
      }
      TallySame(after, ss, OutlineOf);
    }
  }

  lemma {:induction false} PresentInBag(subs: seq<Sub>, m: Moved)
    requires Present(subs, m)
    ensures m in TitledBag(subs)
  {
    hide ItemKeys, TitledBag;
    var i := LastTitled(subs, m.title);
    var keys := ItemKeys(subs[i].lines);
    var k :| 0 <= k < |keys| && keys[k] == m.key;
    assert Moves(m.title, keys)[k] == m && m in multiset(Moves(m.title, keys));
    InTitledBag(subs, i, m);
  }

  lemma {:induction false} InTitledBag(subs: seq<Sub>, i: nat, m: Moved)
    requires i < |subs| && m in multiset(Moves(subs[i].title, ItemKeys(subs[i].lines)))
    ensures m in TitledBag(subs)
  {
    hide ItemKeys;
    var n := |subs| - 1;
    if i < n { InTitledBag(subs[..n], i, m); }
  }

  lemma {:induction false} InSorted(ss: seq<Section>, version: string -> Version, u: nat) returns (i: nat)
    requires u < |ss|
    ensures i < |SortedSections(ss, version)| && SortedSections(ss, version)[i] == ss[u]
  {
    hide SortedSections;
    SortedPermutes(ss, version);
    assert ss[u] in multiset(SortedSections(ss, version));
    i :| 0 <= i < |SortedSections(ss, version)| && SortedSections(ss, version)[i] == ss[u];
  }

  lemma {:induction false} WrittenAlike(file: seq<Text>, lines: set<nat>, history: set<ItemKey>,
    version: string -> Version, k: nat)
    requires k < |PromotedSections(file, lines, history, version)|
    requires NoProseMerge(PromotedSections(file, lines, history, version)[k].subs)
    ensures var s, after := PromotedSections(file, lines, history, version)[k],
          SectionsIn(FixedContent(file, lines, history, version));
      k < |after| && after[k].title == s.title && TitledBag(after[k].subs) == TitledBag(s.subs)
  {
    hide FixedContent, SectionsIn, Dropped, Promoted, TitledBag, LooseBag, SortedSections, NoProseMerge, SubsBag, Trim,
         Normalized;
    var ss := PromotedSections(file, lines, history, version);
    WrittenSections(file, lines, history, version);
    SortedNormal(Promoted(StartsAt(lines), Dropped(SectionsIn(file), history)), version);
    NormalizedBags(ss[k]);
    NormalizedTitle(ss[k]);
    assert NormalizedAll(ss)[k] == Normalized(ss[k]);
    assert AlikeTwo(SectionsIn(FixedContent(file, lines, history, version))[k], Normalized(ss[k]));
  }

  /** Every promotable item of a release ends up in Unreleased under the title it had. */
  lemma {:induction false} ArrivesUnderTitle(file: seq<Text>, lines: set<nat>, history: set<ItemKey>,
    version: string -> Version, i: nat, j: nat, item: seq<Line>)
    requires NoProseMerges(SectionsIn(file))
    requires i < |SectionsIn(file)| && SectionsIn(file)[i].title != UNRELEASED
    requires j < |SectionsIn(file)[i].subs| && item in Chunks(AtItem, SectionsIn(file)[i].subs[j].lines)
    requires item != [] && item[0].at in lines
    ensures exists a :: a in SectionsIn(FixedContent(file, lines, history, version)) && a.title == UNRELEASED
                        && Moved(SectionsIn(file)[i].subs[j].title, Key(item)) in TitledBag(a.subs)
  {
    hide FixedContent, SectionsIn, Dropped, Promoted, Chunks, Taken, Present, TitledBag, SortedSections, SameProse,
         NoProseMerge, Key;
    var ss := SectionsIn(file);
    var p, dropped := StartsAt(lines), Dropped(ss, history);
    var promoted, m := Promoted(p, dropped), Moved(ss[i].subs[j].title, Key(item));
    DroppedKeepsReleased(ss, history, i);
    TakenItem(p, dropped, i, j, item);
    PromotedProse(p, dropped);
    var u := Find(promoted);
    ProseAfterDrop(ss, history);
    ProseAfterPromotion(p, dropped);
    PresentInBag(promoted[u].subs, m);
    var k := InSorted(promoted, version, u);
    WrittenAlike(file, lines, history, version, k);
  }
}
