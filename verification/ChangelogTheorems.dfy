/**
 What the fixer promises about the files it reads and writes.
 */
module ChangelogTheorems {
  import opened ChangelogText
  import opened ChangelogItems
  import opened ChangelogMerge
  import opened ChangelogDocument
  import opened ChangelogSections
  import opened ChangelogSort
  import opened StableSorting
  import opened ChangelogNormal
  import opened ChangelogHeadings
  import opened ChangelogPromotion
  import opened ChangelogFix
  import opened ChangelogFixer
  import opened ChangelogRoundTrip
  import opened ChangelogPlain

  /** The lines of a file, numbered from 1. */
  function Lines(file: seq<Text>): (r: seq<Line>)
    ensures Increasing(r) && Texts(r) == file
  {
    seq(|file|, i requires 0 <= i < |file| => Line(file[i], i + 1))
  }

  function SectionsIn(file: seq<Text>): seq<Section> { Parse(Lines(file)).sections }

  function FixedDoc(file: seq<Text>, lines: set<nat>, history: set<ItemKey>, version: string -> Version): Doc {
    var doc := Parse(Lines(file));
    Doc(doc.prefix, Fixed(doc.sections, history, lines, version))
  }

  function FixedContent(file: seq<Text>, lines: set<nat>, history: set<ItemKey>,
    version: string -> Version): seq<Text> {
    Rendered(Tidy(FixedDoc(file, lines, history, version)))
  }

  // ----- the parsed lines keep their numbers -----

  lemma {:induction false} ChunkIncreasing(cs: seq<seq<Line>>, c: seq<Line>)
    requires Increasing(Flatten(cs)) && c in cs
    ensures Increasing(c)
  {
    var first, rest := cs[0], Flatten(cs[1..]);
    assert forall i :: 0 <= i < |first| ==> (first + rest)[i] == first[i];
    assert forall i :: 0 <= i < |rest| ==> (first + rest)[|first| + i] == rest[i];
    if c != first {
      ChunkIncreasing(cs[1..], c);
    }
  }

  lemma {:induction false} BodyIncreasing(m: Mark, ls: seq<Line>, c: seq<Line>)
    requires Increasing(ls) && c in Chunks(m, ls)
    ensures c != [] && Increasing(c[1..])
  {
    hide Chunks, Increasing, Lead;
    assert IsChunk(m, c);
    var lead, rest := Lead(m, ls), Flatten(Chunks(m, ls));
    ChunksRejoin(m, ls);
    assert ls[|lead|..] == rest;
    TailIncreasing(ls, |lead|);
    ChunkIncreasing(Chunks(m, ls), c);
    TailIncreasing(c, 1);
  }

  lemma {:induction false} TailIncreasing(ls: seq<Line>, n: nat)
    requires Increasing(ls) && n <= |ls|
    ensures Increasing(ls[n..])
  {
    assert forall i :: 0 <= i < |ls| - n ==> ls[n..][i] == ls[n + i];
  }

  lemma {:induction false} ParsedNumbered(ls: seq<Line>)
    requires Increasing(ls)
    ensures Numbered(Parse(ls).sections)
  {
    hide Chunks, Lead, Increasing;
    var cs := Chunks(AtRelease, ls);
    forall s, b | s in Parse(ls).sections && b in s.subs ensures Increasing(b.lines) {
      var i :| 0 <= i < |cs| && SectionsOf(cs)[i] == s;
      assert cs[i] in cs;
      BodyIncreasing(AtRelease, ls, cs[i]);
      var ds := Chunks(AtHeading, cs[i][1..]);
      var j :| 0 <= j < |ds| && SubsOf(ds)[j] == b;
      assert ds[j] in ds;
      BodyIncreasing(AtHeading, cs[i][1..], ds[j]);
    }
  }

  // ----- the whole program -----

  datatype FixCounters = FixCounters(promoted: nat, merged: nat, removed: nat, dropped: nat)

  method FixChangelogContent(file: seq<Text>, lines: set<nat>, history: set<ItemKey>, version: string -> Version)
    returns (content: seq<Text>, counters: FixCounters)
    ensures content == FixedContent(file, lines, history, version)
    ensures var ss := SectionsIn(file); var dropped := Dropped(ss, history);
      && counters.dropped == |Bag(ss)| - |Bag(dropped)|
      && counters.promoted == |Taken(StartsAt(lines), dropped)|
    ensures var promoted := Promoted(StartsAt(lines), Dropped(SectionsIn(file), history));
      && counters.removed == BlankHeadings(promoted)
      && counters.merged == Headings(promoted) - counters.removed - Headings(NormalizedAll(promoted))
  {
    hide Headings, BlankHeadings, Bag, Dropped, Promoted, NormalizedAll, SortedSections, Numbered, ReleasedNumbered,
         Taken, Increasing;
    var document := new Document(Lines(file));
    ParsedNumbered(Lines(file));
    ghost var ss := document.sections;
    var dropped := document.DropUnreleasedDuplicatesOfReleased(history);
    DroppedNumbered(ss, history);
    var promoted := document.Promote(lines);
    var merged, removed := document.Normalize();
    document.SortReleaseSections(version);
    content := RenderChangelog(Doc(document.prefix, document.sections));
    counters := FixCounters(promoted, merged, removed, dropped);
  }

  // ----- released sections, up to their order -----

  /** A section by its heading, its leading lines, and by title its loose lines and items, as often as they occur. */
  datatype Entry = Entry(
    title: string, raw: string, lead: seq<Text>, loose: multiset<LooseLine>, items: multiset<Moved>)

  function EntryOf(s: Section): Entry {
    Entry(s.title, s.raw, Trim(Texts(s.lead)), LooseBag(s.subs), TitledBag(s.subs))
  }

  function Entries(ss: seq<Section>): multiset<Entry> {
    if ss == [] then multiset{} else multiset{EntryOf(ss[0])} + Entries(ss[1..])
  }

  lemma {:induction false} EntriesAppend(a: seq<Section>, b: seq<Section>)
    ensures Entries(a + b) == Entries(a) + Entries(b)
  {
    hide EntryOf;
    if a == [] {
      assert a + b == b;
    } else {
      assert (a + b)[1..] == a[1..] + b;
      EntriesAppend(a[1..], b);
    }
  }

  lemma {:induction false} Permuted(a: seq<Section>, b: seq<Section>)
    requires multiset(a) == multiset(b)
    ensures Bag(a) == Bag(b) && Entries(a) == Entries(b)
  {
    hide Bag, Entries, EntryOf;
    if a == [] {
      assert |multiset(b)| == |b|;
    } else {
      var i := SameFirst(a, b);
      var x, front, back := a[0], b[..i], b[i + 1..];
      Permuted(a[1..], front + back);
      TakenFrom([], x, a[1..]);
      TakenFrom(front, x, back);
      assert [] + ([x] + a[1..]) == a && [] + a[1..] == a[1..];
    }
  }

  lemma {:induction false} TakenFrom(front: seq<Section>, x: Section, back: seq<Section>)
    ensures Bag(front + ([x] + back)) == Bag([x]) + Bag(front + back)
    ensures Entries(front + ([x] + back)) == Entries([x]) + Entries(front + back)
  {
    hide Bag, Entries;
    BagAppend(front, [x] + back);
    BagAppend([x], back);
    BagAppend(front, back);
    EntriesAppend(front, [x] + back);
    EntriesAppend([x], back);
    EntriesAppend(front, back);
  }

  predicate AlikeTwo(a: Section, b: Section) { EntryOf(a) == EntryOf(b) && SubsBag(a.subs) == SubsBag(b.subs) }

  /** Sections with the same headings, leading lines, loose lines and items, one by one. */
  predicate Alike(a: seq<Section>, b: seq<Section>) {
    |a| == |b| && forall i :: 0 <= i < |a| ==> AlikeTwo(a[i], b[i])
  }

  lemma {:induction false} AlikeFacts(a: Section, b: Section)
    requires AlikeTwo(a, b)
    ensures a.title == b.title && EntryOf(a) == EntryOf(b) && SubsBag(a.subs) == SubsBag(b.subs)
  {
  }

  lemma {:induction false} AlikeSections(a: seq<Section>, b: seq<Section>)
    requires Alike(a, b)
    ensures Bag(a) == Bag(b) && Entries(a) == Entries(b)
    ensures Alike(Select(a, true), Select(b, true)) && Alike(Select(a, false), Select(b, false))
  {
    hide SubsBag, EntryOf, AlikeTwo;
    if a != [] {
      AlikeFacts(a[0], b[0]);
      forall i | 0 <= i < |a| - 1 ensures AlikeTwo(a[1..][i], b[1..][i]) { assert AlikeTwo(a[i + 1], b[i + 1]); }
      AlikeSections(a[1..], b[1..]);
    }
  }

  lemma {:induction false} SelectSelect(ss: seq<Section>, x: bool, y: bool)
    ensures Select(Select(ss, x), y) == if x == y then Select(ss, x) else []
  {
    if ss != [] {
      SelectSelect(ss[1..], x, y);
      if (ss[0].title == UNRELEASED) == x {
        assert Select(ss, x)[1..] == Select(ss[1..], x);
      } else {
        assert Select(ss, x) == [] + Select(ss[1..], x) == Select(ss[1..], x);
      }
    }
  }

  lemma {:induction false} SelectAll(ss: seq<Section>)
    requires forall s :: s in ss ==> s.title != UNRELEASED
    ensures Select(ss, false) == ss && Select(ss, true) == []
  {
    if ss != [] {
      SelectAll(ss[1..]);
      assert ss == [ss[0]] + ss[1..];
    }
  }

  lemma {:induction false} Released(ss: seq<Section>)
    ensures forall s :: s in Select(ss, false) ==> s.title != UNRELEASED
  {
    if ss != [] { Released(ss[1..]); }
  }

  /** Sorting the releases moves sections and changes none. */
  lemma {:induction false} SortedItems(ss: seq<Section>, version: string -> Version)
    ensures var now := SortedSections(ss, version);
      && Select(now, true) == Select(ss, true)
      && Entries(Select(now, false)) == Entries(Select(ss, false)) && Bag(now) == Bag(ss)
  {
    hide Bag, Entries, Select, StableSort;
    var unreleased, released := Select(ss, true), Select(ss, false);
    var sorted := StableSort(released, TitleAfter(version));
    SortKeeps(released, TitleAfter(version));
    Released(ss);
    forall s | s in sorted ensures s.title != UNRELEASED {
      assert s in multiset(sorted);
    }
    SelectAll(sorted);
    SelectAppend(unreleased, sorted, true);
    SelectAppend(unreleased, sorted, false);
    SelectSelect(ss, true, true);
    SelectSelect(ss, true, false);
    assert [] + sorted == sorted && unreleased + [] == unreleased;
    Permuted(sorted, released);
    BagAppend(unreleased, sorted);
    SelectBoth(ss);
  }

  // ----- what survives the file -----

  function TidyBag(subs: seq<TidySub>): multiset<ItemKey> {
    if subs == [] then multiset{} else LinesBag(Synthetic(subs[0].lines)) + TidyBag(subs[1..])
  }

  lemma {:induction false} TidyKeepsBag(subs: seq<Sub>)
    ensures TidyBag(TidySubs(subs)) == SubsBag(subs)
  {
    hide LinesBag, Trim;
    if subs != [] {
      var b, rest := subs[0], subs[1..];
      TidyKeepsBag(rest);
      LinesBagTrim(b.lines);
      var t := TidySubOf(b);
      if t != [] {
        assert (t + TidySubs(rest))[1..] == TidySubs(rest);
      } else {
        assert [] + TidySubs(rest) == TidySubs(rest);
      }
    }
  }

  lemma {:induction false} LinesBagTrim(ls: seq<Line>)
    ensures LinesBag(Synthetic(Trim(Texts(ls)))) == LinesBag(ls)
    ensures Trim(Texts(ls)) == [] ==> LinesBag(ls) == multiset{}
  {
    hide Trim, Chunks, Key;
    TrimmedItems(ls);
    TrimIsEmpty(Texts(ls));
    if Trim(Texts(ls)) == [] { BlankItems(ls); }
  }

  lemma {:induction false} TidyAlikeTwo(a: Section, b: Section)
    requires TidySectionOf(a) == TidySectionOf(b)
    ensures AlikeTwo(a, b)
  {
    hide TidySubs, SubsBag, Trim, Gather, Only, TitledBag, LooseBag;
    TidyKeepsBag(a.subs);
    TidyKeepsBag(b.subs);
    forall title
      ensures ItemsUnder(a.subs, title) == ItemsUnder(b.subs, title)
      ensures LooseUnder(a.subs, title) == LooseUnder(b.subs, title)
    {
      TidyKeeps(a.subs, title);
      TidyKeeps(b.subs, title);
    }
    BagsByTitle(a.subs, b.subs);
  }

  lemma {:induction false} TidyAlike(a: seq<Section>, b: seq<Section>)
    requires TidySections(a) == TidySections(b)
    ensures Alike(a, b)
  {
    hide TidySubs, SubsBag, Trim, AlikeTwo;
    forall i | 0 <= i < |a| ensures AlikeTwo(a[i], b[i]) {
      assert TidySections(a)[i] == TidySections(b)[i];
      TidyAlikeTwo(a[i], b[i]);
    }
  }

  /** The sections of the written file are those of the fixed document. */
  lemma {:induction false} WrittenSections(file: seq<Text>, lines: set<nat>, history: set<ItemKey>,
    version: string -> Version)
    ensures Alike(SectionsIn(FixedContent(file, lines, history, version)),
                  Fixed(SectionsIn(file), history, lines, version))
  {
    hide Fits, Fixed, Parse, TidySections, Rendered, Increasing, Alike;
    var doc := FixedDoc(file, lines, history, version);
    ParsedFits(Lines(file));
    FixedFits(Parse(Lines(file)), history, lines, version);
    var written := Lines(FixedContent(file, lines, history, version));
    RenderThenParse(doc, written);
    TidyAlike(Parse(written).sections, doc.sections);
  }

  // ----- the theorems -----

  predicate NoProseMerges(ss: seq<Section>) { forall i :: 0 <= i < |ss| ==> NoProseMerge(ss[i].subs) }

  lemma {:induction false} ProseAfterDrop(ss: seq<Section>, history: set<ItemKey>)
    requires NoProseMerges(ss)
    ensures NoProseMerges(Dropped(ss, history))
  {
    hide NoProseMerge, RestSubs, Bag;
    var u := Find(ss);
    if u >= 0 {
      RestKeepsProse(HasKey((set k | k in Bag(Select(ss, false))) + history), ss[u].subs);
    }
  }

  lemma {:induction false} ProseAfterPromotion(p: Pick, ss: seq<Section>)
    requires NoProseMerges(ss)
    ensures NoProseMerges(Promoted(p, ss))
  {
    hide NoProseMerge, RestSubs, Taken, AddAll, Bag, SubsBag, MovedBag, IsKey, Find;
    var lefts, moved, u := Lefts(p, ss), Taken(p, ss), Find(ss);
    forall i | 0 <= i < |ss| ensures NoProseMerge(lefts[i].subs) {
      RestKeepsProse(p, ss[i].subs);
    }
    LeftsBag(p, ss);
    ProseAfterGive(lefts, u, moved);
  }

  lemma {:induction false} ProseAfterGive(ss: seq<Section>, u: int, moved: seq<Moved>)
    requires NoProseMerges(ss) && -1 <= u < |ss| && forall m :: m in moved ==> IsKey(m.key)
    ensures NoProseMerges(Give(ss, u, moved))
  {
    hide NoProseMerge, AddAll, SubsBag, MovedBag, IsKey;
    NoProseInNone();
    AddAllBag(if u >= 0 then ss[u].subs else [], moved);
  }

  lemma {:induction false} NormalizedAlike(ss: seq<Section>)
    requires NoProseMerges(ss)
    ensures Alike(NormalizedAll(ss), ss)
  {
    hide NoProseMerge, SubsBag, MergeAll, TitledBag, LooseBag, Normalized, Under, Trim;
    forall i | 0 <= i < |ss| ensures AlikeTwo(NormalizedAll(ss)[i], ss[i]) {
      NormalizedItems(ss[i]);
      NormalizedBags(ss[i]);
      NormalizedText(ss[i]);
    }
  }

  /** Sections of the written file against those that were there after promotion. */
  lemma {:induction false} Written(file: seq<Text>, lines: set<nat>, history: set<ItemKey>, version: string -> Version)
    requires NoProseMerges(SectionsIn(file))
    ensures var after := SectionsIn(FixedContent(file, lines, history, version));
      var promoted := Promoted(StartsAt(lines), Dropped(SectionsIn(file), history));
      && Bag(after) == Bag(promoted) && Bag(Select(after, true)) == Bag(Select(promoted, true))
      && Entries(Select(after, false)) == Entries(Select(promoted, false))
  {
    hide FixedContent, SectionsIn, Dropped, Promoted, NoProseMerges, Bag, Entries, Select, Alike, SortedSections,
         NormalizedAll;
    var ss, after := SectionsIn(file), SectionsIn(FixedContent(file, lines, history, version));
    var dropped := Dropped(ss, history);
    var promoted := Promoted(StartsAt(lines), dropped);
    var normal := NormalizedAll(promoted);
    var sorted := SortedSections(normal, version);
    WrittenSections(file, lines, history, version);
    AlikeSections(after, sorted);
    AlikeSections(Select(after, true), Select(sorted, true));
    AlikeSections(Select(after, false), Select(sorted, false));
    SortedItems(normal, version);
    ProseAfterDrop(ss, history);
    ProseAfterPromotion(StartsAt(lines), dropped);
    NormalizedAlike(promoted);
    AlikeSections(normal, promoted);
    AlikeSections(Select(normal, true), Select(promoted, true));
    AlikeSections(Select(normal, false), Select(promoted, false));
  }

  lemma {:induction false} NormalizedFile(ss: seq<Section>)
    ensures NoProseMerges(ss) ==> Bag(NormalizedAll(ss)) == Bag(ss)
    ensures !NoProseMerges(ss) ==> Weight(Bag(NormalizedAll(ss))) > Weight(Bag(ss))
  {
    hide SubsBag, Weight, NoProseMerge, Normalized;
    if ss != [] {
      var rest := ss[1..];
      assert NormalizedAll(ss)[1..] == NormalizedAll(rest);
      NormalizedWeight(ss[0]);
      NormalizedFile(rest);
      assert NoProseMerges(ss) <==> NoProseMerge(ss[0].subs) && NoProseMerges(rest) by {
        if NoProseMerge(ss[0].subs) && NoProseMerges(rest) {
          forall i | 0 <= i < |ss| ensures NoProseMerge(ss[i].subs) {
            if i > 0 { assert ss[i] == rest[i - 1]; }
          }
        }
        if NoProseMerges(ss) {
          forall i | 0 <= i < |rest| ensures NoProseMerge(rest[i].subs) { assert rest[i] == ss[i + 1]; }
        }
      }
      WeightAdd(SubsBag(ss[0].subs), Bag(rest));
      WeightAdd(SubsBag(Normalized(ss[0]).subs), Bag(NormalizedAll(rest)));
    }
  }

  /**
   The written file has the items that were there after promotion, each as often, exactly when no section by then
   had prose to merge behind an item.
   */
  lemma {:induction false} WrittenItemsExact(file: seq<Text>, lines: set<nat>, history: set<ItemKey>,
    version: string -> Version)
    ensures var promoted := Promoted(StartsAt(lines), Dropped(SectionsIn(file), history));
      Bag(SectionsIn(FixedContent(file, lines, history, version))) == Bag(promoted) <==> NoProseMerges(promoted)
  {
    hide FixedContent, SectionsIn, Dropped, Promoted, NoProseMerges, Bag, Entries, Select, Alike, SortedSections,
         NormalizedAll, Weight;
    var promoted := Promoted(StartsAt(lines), Dropped(SectionsIn(file), history));
    var normal := NormalizedAll(promoted);
    WrittenSections(file, lines, history, version);
    AlikeSections(SectionsIn(FixedContent(file, lines, history, version)), SortedSections(normal, version));
    SortedItems(normal, version);
    NormalizedFile(promoted);
  }

  /**
   As long as no prose is merged behind an item, the fixed file has the items of the original,
   except those of Unreleased that only the history knows; with no history, exactly those.
   */
  lemma {:induction false} FixConservesItems(file: seq<Text>, lines: set<nat>, history: set<ItemKey>,
    version: string -> Version)
    requires NoProseMerges(SectionsIn(file))
    ensures var before, after := SectionsIn(file), SectionsIn(FixedContent(file, lines, history, version));
      && ((forall k :: k in Bag(after) <==> k in Bag(before)) <==> HistoryElsewhere(before, history))
      && (history == {} ==> forall k :: k in Bag(after) <==> k in Bag(before))
  {
    hide FixedContent, SectionsIn, Dropped, Promoted, NoProseMerges, Bag, Entries, Select;
    Written(file, lines, history, version);
    var dropped := Dropped(SectionsIn(file), history);
    PromotedItems(StartsAt(lines), dropped);
    DroppedItems(SectionsIn(file), history);
  }

  /** Every promotable item of a release ends up in Unreleased. */
  lemma {:induction false} PromotableItemsArrive(file: seq<Text>, lines: set<nat>, history: set<ItemKey>,
    version: string -> Version, i: nat, j: nat, item: seq<Line>)
    requires NoProseMerges(SectionsIn(file))
    requires i < |SectionsIn(file)| && SectionsIn(file)[i].title != UNRELEASED
    requires j < |SectionsIn(file)[i].subs| && item in Chunks(AtItem, SectionsIn(file)[i].subs[j].lines)
    requires item != [] && item[0].at in lines
    ensures Key(item) in Bag(Select(SectionsIn(FixedContent(file, lines, history, version)), true))
  {
    hide FixedContent, SectionsIn, Dropped, Promoted, NoProseMerges, Bag, Entries, Select, Chunks;
    var ss := SectionsIn(file);
    var p, dropped := StartsAt(lines), Dropped(ss, history);
    Written(file, lines, history, version);
    PromotedItems(p, dropped);
    DroppedKeepsReleased(ss, history, i);
    TakenItem(p, dropped, i, j, item);
  }

  lemma {:induction false} DroppedKeepsReleased(ss: seq<Section>, history: set<ItemKey>, i: nat)
    requires i < |ss| && ss[i].title != UNRELEASED
    ensures i < |Dropped(ss, history)| && Dropped(ss, history)[i] == ss[i]
  {
  }

  lemma {:induction false} TakenItem(p: Pick, ss: seq<Section>, i: nat, j: nat, item: seq<Line>)
    requires i < |ss| && ss[i].title != UNRELEASED && j < |ss[i].subs|
    requires item in Chunks(AtItem, ss[i].subs[j].lines) && item != [] && Picks(p, item)
    ensures Moved(ss[i].subs[j].title, Key(item)) in Taken(p, ss)
  {
    hide TakenSubs, Chunks, Picks;
    if i == 0 {
      TakenItemOf(p, ss[0].subs, j, item);
    } else {
      TakenItem(p, ss[1..], i - 1, j, item);
    }
  }

  lemma {:induction false} TakenItemOf(p: Pick, subs: seq<Sub>, j: nat, item: seq<Line>)
    requires j < |subs| && item in Chunks(AtItem, subs[j].lines) && item != [] && Picks(p, item)
    ensures Moved(subs[j].title, Key(item)) in TakenSubs(p, subs)
  {
    hide Chunks, Picks, Key;
    if j == 0 {
      var chosen := Picked(p, Chunks(AtItem, subs[0].lines));
      assert item in chosen;
      var x :| 0 <= x < |chosen| && chosen[x] == item;
      assert Moves(subs[0].title, Keys(chosen))[x] == Moved(subs[0].title, Key(item));
    } else {
      TakenItemOf(p, subs[1..], j - 1, item);
    }
  }

  /** The releases keep their headings and every item that was not promotable, each as often as before. */
  lemma {:induction false} OtherItemsStay(file: seq<Text>, lines: set<nat>, history: set<ItemKey>,
    version: string -> Version)
    requires NoProseMerges(SectionsIn(file))
    ensures var before, after := SectionsIn(file), SectionsIn(FixedContent(file, lines, history, version));
      Entries(Select(after, false)) == Entries(Lefts(StartsAt(lines), Select(before, false)))
  {
    hide FixedContent, SectionsIn, Dropped, Promoted, NoProseMerges, Bag, Entries, Select, Lefts;
    Written(file, lines, history, version);
    PromotedItems(StartsAt(lines), Dropped(SectionsIn(file), history));
    DroppedItems(SectionsIn(file), history);
  }

  /** The versions of the released sections. */
  ghost function Versions(ss: seq<Section>, version: string -> Version): set<Version> {
    set s | s in Select(ss, false) :: version(s.title)
  }

  /** The passes before sorting keep the titles of the releases. */
  lemma {:induction false} TitlesStay(ss: seq<Section>, history: set<ItemKey>, lines: set<nat>,
    version: string -> Version)
    ensures var now := Select(NormalizedAll(Promoted(StartsAt(lines), Dropped(ss, history))), false);
      forall s :: s in now ==> version(s.title) in Versions(ss, version)
  {
    hide Dropped, Promoted, Select;
    var p, dropped := StartsAt(lines), Dropped(ss, history);
    var promoted, released := Promoted(p, dropped), Select(ss, false);
    DroppedItems(ss, history);
    PromotedItems(p, dropped);
    SelectNormalized(promoted);
    var now := Select(NormalizedAll(promoted), false);
    forall s | s in now ensures version(s.title) in Versions(ss, version) {
      var i :| 0 <= i < |now| && now[i] == s;
      LeftNormalTitle(p, released[i]);
      assert released[i] in released;
    }
  }

  lemma {:induction false} LeftNormalTitle(p: Pick, s: Section)
    ensures Normalized(Left(p, s)).title == s.title
  {
  }

  lemma {:induction false} NormalizedFront(s: Section, rest: seq<Section>)
    ensures NormalizedAll([s] + rest) == [Normalized(s)] + NormalizedAll(rest)
  {
    hide Normalized;
  }

  lemma {:induction false} NormalizedTitle(s: Section)
    ensures Normalized(s).title == s.title
  {
  }

  lemma {:induction false} SelectNormalized(ss: seq<Section>)
    ensures Select(NormalizedAll(ss), false) == NormalizedAll(Select(ss, false))
  {
    hide NormalizedAll, Normalized;
    if ss != [] {
      var s, rest := ss[0], ss[1..];
      assert ss == [s] + rest;
      SelectNormalized(rest);
      NormalizedFront(s, rest);
      NormalizedTitle(s);
      assert NormalizedAll(ss)[1..] == NormalizedAll(rest);
      if s.title != UNRELEASED {
        NormalizedFront(s, Select(rest, false));
      } else {
        assert [] + Select(rest, false) == Select(rest, false);
      }
    }
  }

  lemma {:induction false} OrdersConsistent(ss: seq<Section>, vs: set<Version>, version: string -> Version)
    requires Orders(vs) && forall s :: s in ss ==> version(s.title) in vs
    ensures ConsistentOn(ss, TitleAfter(version))
  {
    hide CompareVersionTitlesDesc;
    forall x, y, z | x in ss && y in ss && z in ss && !TitleAfter(version)(x, y) && !TitleAfter(version)(y, z)
      ensures !TitleAfter(version)(x, z)
    {
      assert InTurn(version(x.title), version(y.title), version(z.title));
    }
  }

  lemma {:induction false} SortedAlike(a: seq<Section>, b: seq<Section>, version: string -> Version)
    requires Alike(a, b) && Sorted(b, TitleAfter(version))
    ensures Sorted(a, TitleAfter(version))
  {
    forall i, j | 0 <= i < j < |a| ensures !TitleAfter(version)(a[i], a[j]) {
      assert AlikeTwo(a[i], b[i]) && AlikeTwo(a[j], b[j]);
    }
  }

  ghost predicate NoNewerBehind(ss: seq<Section>, version: string -> Version) {
    forall i, j :: 0 <= i < j < |ss| ==> !Newer(version(ss[j].title), version(ss[i].title))
  }

  ghost predicate UnreleasedFirst(ss: seq<Section>) {
    forall i, j :: 0 <= i < j < |ss| && ss[j].title == UNRELEASED ==> ss[i].title == UNRELEASED
  }

  lemma {:induction false} OnlySelected(ss: seq<Section>, unreleased: bool)
    ensures forall s :: s in Select(ss, unreleased) ==> (s.title == UNRELEASED <==> unreleased)
  {
    if ss != [] { OnlySelected(ss[1..], unreleased); }
  }

  lemma {:induction false} SortedFirst(ss: seq<Section>, version: string -> Version)
    ensures UnreleasedFirst(SortedSections(ss, version))
  {
    hide Select, StableSort;
    var u, r := Select(ss, true), StableSort(Select(ss, false), TitleAfter(version));
    OnlySelected(ss, true);
    OnlySelected(ss, false);
    SortKeeps(Select(ss, false), TitleAfter(version));
    var all := SortedSections(ss, version);
    forall i | 0 <= i < |all| ensures all[i].title == UNRELEASED <==> i < |u| {
      if i < |u| {
        assert all[i] == u[i];
      } else {
        assert all[i] == r[i - |u|] && r[i - |u|] in multiset(r) && r[i - |u|] in Select(ss, false);
      }
    }
  }

  lemma {:induction false} FirstAlike(a: seq<Section>, b: seq<Section>)
    requires Alike(a, b) && UnreleasedFirst(b)
    ensures UnreleasedFirst(a)
  {
    forall i, j | 0 <= i < j < |a| && a[j].title == UNRELEASED ensures a[i].title == UNRELEASED {
      assert AlikeTwo(a[i], b[i]) && AlikeTwo(a[j], b[j]);
    }
  }

  /** Unreleased stands first in the written file. */
  lemma {:induction false} UnreleasedComesFirst(file: seq<Text>, lines: set<nat>, history: set<ItemKey>,
    version: string -> Version)
    ensures UnreleasedFirst(SectionsIn(FixedContent(file, lines, history, version)))
  {
    hide Dropped, Promoted, FixedContent, SectionsIn, NormalizedAll, Alike, UnreleasedFirst;
    WrittenSections(file, lines, history, version);
    var ss := SectionsIn(file);
    SortedFirst(NormalizedAll(Promoted(StartsAt(lines), Dropped(ss, history))), version);
    FirstAlike(SectionsIn(FixedContent(file, lines, history, version)), Fixed(ss, history, lines, version));
  }

  lemma {:induction false} SortedIsNewestFirst(ss: seq<Section>, version: string -> Version)
    requires Sorted(ss, TitleAfter(version))
    ensures NoNewerBehind(ss, version)
  {
    hide Newer, CompareVersionTitlesDesc;
    forall i, j | 0 <= i < j < |ss| ensures !Newer(version(ss[j].title), version(ss[i].title)) {
      assert !TitleAfter(version)(ss[i], ss[j]);
      NewerComesFirst(version(ss[j].title), version(ss[i].title));
    }
  }

  /** The releases of the written file stand newest first whenever the comparator orders
      their versions, that is, when versions that begin like an odd one tie. */
  lemma {:induction false} ReleasesNewestFirst(file: seq<Text>, lines: set<nat>, history: set<ItemKey>,
    version: string -> Version)
    requires OddPartsTie(Versions(SectionsIn(file), version))
    ensures NoNewerBehind(Select(SectionsIn(FixedContent(file, lines, history, version)), false), version)
  {
    hide Select, Dropped, Promoted, CompareVersionTitlesDesc, StableSort, OddPartsTie, Orders, FixedContent, SectionsIn,
         NormalizedAll, Versions, Alike, NoNewerBehind;
    var ss := SectionsIn(file);
    var normal := NormalizedAll(Promoted(StartsAt(lines), Dropped(ss, history)));
    var after := TitleAfter(version);
    OrdersExactly(Versions(ss, version));
    TitlesStay(ss, history, lines, version);
    OrdersConsistent(Select(normal, false), Versions(ss, version), version);
    SortSorts(Select(normal, false), after);
    SortedReleased(normal, version);
    WrittenSections(file, lines, history, version);
    AlikeSections(SectionsIn(FixedContent(file, lines, history, version)), Fixed(ss, history, lines, version));
    SortedAlike(Select(SectionsIn(FixedContent(file, lines, history, version)), false),
                Select(Fixed(ss, history, lines, version), false), version);
    SortedIsNewestFirst(Select(SectionsIn(FixedContent(file, lines, history, version)), false), version);
  }

  lemma {:induction false} SortedReleased(ss: seq<Section>, version: string -> Version)
    ensures Select(SortedSections(ss, version), false) == StableSort(Select(ss, false), TitleAfter(version))
  {
    hide Select, StableSort;
    var unreleased, released := Select(ss, true), Select(ss, false);
    var sorted := StableSort(released, TitleAfter(version));
    SortKeeps(released, TitleAfter(version));
    Released(ss);
    forall s | s in sorted ensures s.title != UNRELEASED {
      assert s in multiset(sorted);
    }
    SelectAll(sorted);
    SelectAppend(unreleased, sorted, false);
    SelectSelect(ss, true, false);
    assert [] + sorted == sorted;
  }

  /** Prose below a repeated heading joins the item above it, and that item is gone under its own key. */
  lemma {:induction false} ProseMergeLosesItem()
    ensures var item, prose := Item("- a"), Prose("b");
      var s := Section("1.0", "## [1.0]", [], [Sub("Added", [Line(item, 3)]), Sub("Added", [Line(prose, 5)])]);
      SubsBag(Normalized(s).subs) != SubsBag(s.subs)
  {
    hide SubsBag, Normalized, Trim;
    var item, prose := Item("- a"), Prose("b");
    var a, b := [Line(item, 3)], [Line(prose, 5)];
    var s := Section("1.0", "## [1.0]", [], [Sub("Added", a), Sub("Added", b)]);
    assert HasItems(s.subs[0].lines) by { assert a[1..] == [] && Chunks(AtItem, a) != []; }
    assert b[1..] == [] && Lead(AtItem, b) == [b[0]] + Lead(AtItem, b[1..]);
    assert Texts(Lead(AtItem, b))[0] == prose && prose in Texts(Lead(AtItem, b));
    assert !StartsClean(s.subs[1].lines);
    assert !NoProseMerge(s.subs);
    NormalizedItems(s);
  }
}
