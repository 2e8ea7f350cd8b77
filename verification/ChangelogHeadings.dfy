/**
 What stands under each heading: all lines but blank ones, in order, and those of
 them that belong to no item.
 */
module ChangelogHeadings {
  import opened ChangelogText
  import opened ChangelogItems
  import opened ChangelogMerge
  import opened ChangelogDocument
  import opened ChangelogSections
  import opened ChangelogSort
  import opened StableSorting
  import opened ChangelogNormal

  // ----- all lines under a title -----

  function Words(ls: seq<Line>): seq<Text> { NonBlank(Texts(ls)) }

  /** The lines in front of the first item. */
  function Loose(ls: seq<Line>): seq<Text> { NonBlank(Texts(Lead(AtItem, ls))) }

  /** A part of the lines under a title, from all its subsections in turn. */
  function Gather(subs: seq<Sub>, title: string, part: seq<Line> -> seq<Text>): seq<Text> {
    if subs == [] then []
    else
      var n := |subs| - 1;
      Gather(subs[..n], title, part) + (if subs[n].title == title then part(subs[n].lines) else [])
  }

  function Under(subs: seq<Sub>, title: string): seq<Text> { Gather(subs, title, Words) }

  function LooseUnder(subs: seq<Sub>, title: string): seq<Text> { Gather(subs, title, Loose) }

  lemma {:induction false} GatherEnd(subs: seq<Sub>, b: Sub, title: string, part: seq<Line> -> seq<Text>)
    ensures Gather(subs + [b], title, part)
         == Gather(subs, title, part) + (if b.title == title then part(b.lines) else [])
  {
    assert (subs + [b])[..|subs|] == subs;
  }

  lemma {:induction false} GatherEmpty(title: string, part: seq<Line> -> seq<Text>)
    ensures Gather([], title, part) == []
  {
  }

  lemma {:induction false} InThree(a: seq<Text>, b: seq<Text>, c: seq<Text>)
    ensures a + b + c == a + (b + c)
  {
  }

  lemma {:induction false} GatherAppend(a: seq<Sub>, b: seq<Sub>, title: string, part: seq<Line> -> seq<Text>)
    ensures Gather(a + b, title, part) == Gather(a, title, part) + Gather(b, title, part)
  {
    hide Gather;
    if b == [] {
      assert a + b == a;
      GatherEmpty(title, part);
    } else {
      var n := |b| - 1;
      var front, last := b[..n], b[n];
      GatherAppend(a, front, title, part);
      assert a + b == (a + front) + [last] && b == front + [last];
      GatherEnd(a + front, last, title, part);
      GatherEnd(front, last, title, part);
      InThree(Gather(a, title, part), Gather(front, title, part), if last.title == title then part(last.lines) else []);
    }
  }

  lemma {:induction false} GatherNone(subs: seq<Sub>, title: string, part: seq<Line> -> seq<Text>)
    requires forall i :: 0 <= i < |subs| ==> subs[i].title != title
    ensures Gather(subs, title, part) == []
  {
    if subs != [] { GatherNone(subs[..|subs| - 1], title, part); }
  }

  lemma {:induction false} GatherSplit(subs: seq<Sub>, i: nat, b: Sub, title: string, part: seq<Line> -> seq<Text>)
    requires i < |subs|
    ensures Gather(subs[i := b], title, part)
         == Gather(subs[..i], title, part) + (if b.title == title then part(b.lines) else [])
            + Gather(subs[i + 1..], title, part)
    ensures Gather(subs, title, part)
         == Gather(subs[..i], title, part) + (if subs[i].title == title then part(subs[i].lines) else [])
            + Gather(subs[i + 1..], title, part)
  {
    hide Gather;
    assert subs[i := b] == subs[..i] + [b] + subs[i + 1..] && subs == subs[..i] + [subs[i]] + subs[i + 1..];
    GatherAppend(subs[..i] + [b], subs[i + 1..], title, part);
    GatherAppend(subs[..i] + [subs[i]], subs[i + 1..], title, part);
    GatherEnd(subs[..i], b, title, part);
    GatherEnd(subs[..i], subs[i], title, part);
  }

  /** Where titles do not repeat, one subsection has all lines of its title. */
  lemma {:induction false} GatherDistinct(subs: seq<Sub>, i: nat, part: seq<Line> -> seq<Text>)
    requires Distinct(subs) && i < |subs|
    ensures Gather(subs, subs[i].title, part) == part(subs[i].lines)
  {
    var title := subs[i].title;
    GatherSplit(subs, i, subs[i], title, part);
    GatherNone(subs[..i], title, part);
    GatherNone(subs[i + 1..], title, part);
  }

  lemma {:induction false} GatherPermuted(a: seq<Sub>, b: seq<Sub>, title: string, part: seq<Line> -> seq<Text>)
    requires Distinct(a) && Distinct(b) && multiset(a) == multiset(b)
    ensures Gather(a, title, part) == Gather(b, title, part)
  {
    hide Gather;
    if i :| 0 <= i < |a| && a[i].title == title {
      assert a[i] in multiset(b);
      var j :| 0 <= j < |b| && b[j] == a[i];
      GatherDistinct(a, i, part);
      GatherDistinct(b, j, part);
    } else {
      forall j | 0 <= j < |b| ensures b[j].title != title {
        assert b[j] in multiset(a);
        var i :| 0 <= i < |a| && a[i] == b[j];
      }
      GatherNone(a, title, part);
      GatherNone(b, title, part);
    }
  }

  // ----- one merge -----

  lemma {:induction false} AppendedWords(lines: seq<Line>, source: seq<Text>)
    ensures Words(Appended(lines, source)) == Words(lines) + NonBlank(source)
  {
    hide Trim, NonBlank;
    var more, existing := Trim(source), Trim(Texts(lines));
    NonBlankTrim(source);
    NonBlankTrim(Texts(lines));
    NoneLeft();
    if more != [] {
      assert Texts(Synthetic(more)) == more;
      if existing != [] {
        var sep := Separator(existing, more);
        NonBlankOfBlanks(sep);
        NonBlankAppend(existing + sep, more);
        NonBlankAppend(existing, sep);
        assert Texts(Synthetic(existing + sep + more)) == existing + sep + more;
      }
    }
  }

  lemma {:induction false} NoneLeft()
    ensures NonBlank([]) == []
  {
  }

  lemma {:induction false} CompactedWords(b: Sub)
    ensures var c := Compacted(Trim(Texts(b.lines)));
      NonBlank(c) == Words(b.lines) && (c == [] <==> AllBlank(Texts(b.lines)))
  {
    hide Trim, Compacted, NonBlank;
    CompactedItems(b.lines);
    SameCompacted(Texts(b.lines));
  }

  lemma {:induction false} MergeUnder(merged: seq<Sub>, b: Sub, title: string)
    requires Distinct(merged)
    ensures Under(MergeInto(merged, b), title)
         == Under(merged, title) + (if b.title == title then Words(b.lines) else [])
  {
    hide Compacted, Trim, Appended, Gather, Words;
    var c, i := Compacted(Trim(Texts(b.lines))), LastTitled(merged, b.title);
    CompactedWords(b);
    if c == [] {
      WordsOfBlanks(b.lines);
    } else if i >= 0 {
      var joined := Sub(b.title, Appended(merged[i].lines, c));
      AppendedWords(merged[i].lines, c);
      GatherSplit(merged, i, joined, title, Words);
      if b.title == title {
        GatherNone(merged[i + 1..], title, Words);
        GatherNone(merged[..i], title, Words);
      }
    } else {
      var one := Sub(b.title, Synthetic(c));
      SyntheticWords(c);
      GatherEnd(merged, one, title, Words);
    }
  }

  lemma {:induction false} SyntheticWords(ts: seq<Text>)
    ensures Words(Synthetic(ts)) == NonBlank(ts)
  {
    assert Texts(Synthetic(ts)) == ts;
  }

  lemma {:induction false} WordsOfBlanks(ls: seq<Line>)
    requires AllBlank(Texts(ls))
    ensures Words(ls) == []
  {
    NonBlankOfBlanks(Texts(ls));
  }

  /** Merging keeps every line under its title, in order. */
  lemma {:induction false} MergedUnder(subs: seq<Sub>, title: string)
    ensures Under(MergeAll(subs), title) == Under(subs, title)
  {
    hide MergeInto, Words;
    if subs != [] {
      var n := |subs| - 1;
      MergedUnder(subs[..n], title);
      MergedDistinct(subs[..n]);
      MergeUnder(MergeAll(subs[..n]), subs[n], title);
    }
  }

  // ----- normalizing -----

  /** A section's heading and its leading lines without blank ones at the edges. */
  datatype Head = Head(title: string, raw: string, lead: seq<Text>)

  function HeadOf(s: Section): Head { Head(s.title, s.raw, Trim(Texts(s.lead))) }

  /** The same heading, the same leading lines, and under each title the same lines in the same order. */
  ghost predicate SameText(a: Section, b: Section) {
    HeadOf(a) == HeadOf(b) && forall title :: Under(a.subs, title) == Under(b.subs, title)
  }

  /** Normalizing keeps heading, leading lines, and all lines under each title. */
  lemma {:induction false} NormalizedText(s: Section)
    ensures SameText(Normalized(s), s)
  {
    hide Trim, MergeAll, Gather;
    var now := Normalized(s);
    assert Texts(Synthetic(Trim(Texts(s.lead)))) == Trim(Texts(s.lead));
    TrimTwice(Texts(s.lead));
    forall title ensures Under(now.subs, title) == Under(s.subs, title) {
      MergedUnder(s.subs, title);
      MergedDistinct(s.subs);
      if s.title == UNRELEASED {
        SortKeeps(MergeAll(s.subs), SubAfter);
        DistinctPermuted(MergeAll(s.subs), now.subs);
        GatherPermuted(now.subs, MergeAll(s.subs), title, Words);
      }
    }
  }

  // ----- lines that belong to no item -----

  lemma {:induction false} LooseConcat(a: seq<Line>, b: seq<Line>)
    ensures Loose(a + b) == Loose(a) + (if HasItems(a) then [] else Loose(b))
  {
    hide Chunks, Lead, NonBlank;
    ItemsConcat(a, b);
    if !HasItems(a) {
      NoItemsIn(a);
      assert Texts(a + Lead(AtItem, b)) == Texts(a) + Texts(Lead(AtItem, b));
      NonBlankAppend(Texts(a), Texts(Lead(AtItem, b)));
    }
  }

  lemma {:induction false} LooseByText(a: seq<Line>, b: seq<Line>)
    requires Texts(a) == Texts(b)
    ensures Loose(a) == Loose(b) && (HasItems(a) <==> HasItems(b))
  {
    hide Chunks, Lead, NonBlank;
    SplitsByText(AtItem, a, b);
  }

  lemma {:induction false} LooseBlanks(ls: seq<Line>)
    requires AllBlank(Texts(ls))
    ensures Loose(ls) == [] && !HasItems(ls)
  {
    hide Chunks, Lead, NonBlank;
    BlanksOnly(ls);
    NonBlankOfBlanks(Texts(ls));
  }

  lemma {:induction false} LooseMeans(ls: seq<Line>)
    ensures StartsClean(ls) <==> Loose(ls) == []
  {
    hide Lead;
    NoneSolid(Texts(Lead(AtItem, ls)));
  }

  lemma {:induction false} NoneSolid(ts: seq<Text>)
    ensures AllBlank(ts) <==> NonBlank(ts) == []
  {
    if ts != [] {
      NoneSolid(ts[1..]);
      assert ts == [ts[0]] + ts[1..];
      assert forall t :: t in ts <==> t == ts[0] || t in ts[1..];
    }
  }

  lemma {:induction false} LooseTrimmed(ls: seq<Line>)
    ensures var t := Synthetic(Trim(Texts(ls))); Loose(t) == Loose(ls) && (HasItems(t) <==> HasItems(ls))
  {
    hide Chunks, Trim, Loose, HasItems;
    var front, back := TrimCuts(Texts(ls));
    var f, t, b := Synthetic(front), Synthetic(Trim(Texts(ls))), Synthetic(back);
    assert Texts(f) == front && Texts(b) == back && Texts(f + t + b) == Texts(ls);
    LooseByText(f + t + b, ls);
    LooseConcat(f + t, b);
    LooseConcat(f, t);
    LooseBlanks(f);
    LooseBlanks(b);
    TrimmedItems(ls);
  }

  lemma {:induction false} LooseCompacted(b: Sub)
    ensures Loose(Synthetic(Compacted(Trim(Texts(b.lines))))) == Loose(b.lines)
  {
    hide Trim, Chunks, Lead, NonBlank, Key, Flatten, ItemKeys;
    var t := Trim(Texts(b.lines));
    TrimTwice(Texts(b.lines));
    LooseTrimmed(b.lines);
    if t != [] {
      CompactedWhen(t);
      if t[0].Item? {
        CompactedFlat(t);
        LooseMeans(Synthetic(t));
        LooseMeans(Synthetic(Flatten(ItemKeys(Synthetic(t)))));
      }
    }
  }

  lemma {:induction false} LooseBetween(a: seq<Line>, sep: seq<Text>, b: seq<Line>)
    requires AllBlank(sep)
    ensures Loose(a + (Synthetic(sep) + b)) == Loose(a) + (if HasItems(a) then [] else Loose(b))
  {
    hide Loose, HasItems;
    assert Texts(Synthetic(sep)) == sep;
    LooseConcat(a, Synthetic(sep) + b);
    LooseConcat(Synthetic(sep), b);
    LooseBlanks(Synthetic(sep));
  }

  /** Loose lines that come behind an item belong to it from then on. */
  lemma {:induction false} LooseAppended(lines: seq<Line>, source: seq<Text>)
    ensures Loose(Appended(lines, source)) == Loose(lines) + (if HasItems(lines) then [] else Loose(Synthetic(source)))
    ensures HasItems(Appended(lines, source)) <==> HasItems(lines) || HasItems(Synthetic(source))
  {
    hide Chunks, Trim, Loose, HasItems, ItemKeys, StartsClean, Joined, JoinsCleanly, AllBlank;
    var more, existing := Trim(source), Trim(Texts(lines));
    LooseTrimmed(lines);
    assert Texts(Synthetic(source)) == source;
    LooseTrimmed(Synthetic(source));
    AppendedItems(lines, source);
    TrimIsEmpty(source);
    TrimIsEmpty(Texts(lines));
    if more == [] {
      LooseBlanks(Synthetic(source));
    } else if existing == [] {
      LooseBlanks(lines);
    } else {
      LooseBetween(Synthetic(existing), Separator(existing, more), Synthetic(more));
      assert Appended(lines, source)
          == Synthetic(existing) + (Synthetic(Separator(existing, more)) + Synthetic(more));
    }
  }

  lemma {:induction false} LooseJoined(merged: seq<Sub>, i: nat, b: Sub, c: seq<Text>, title: string)
    requires Distinct(merged) && i < |merged| && merged[i].title == b.title && Loose(Synthetic(c)) == Loose(b.lines)
    ensures LooseUnder(merged[i := Sub(b.title, Appended(merged[i].lines, c))], title)
         == LooseUnder(merged, title) + (if b.title == title && !ItemsTitled(merged, title) then Loose(b.lines) else [])
  {
    hide Appended, Gather, Loose, HasItems;
    var joined := Sub(b.title, Appended(merged[i].lines, c));
    LooseAppended(merged[i].lines, c);
    GatherSplit(merged, i, joined, title, Loose);
    TitledAt(merged, i);
    if b.title == title {
      GatherNone(merged[i + 1..], title, Loose);
      GatherNone(merged[..i], title, Loose);
    }
  }

  lemma {:induction false} NotTitled(subs: seq<Sub>, title: string)
    requires LastTitled(subs, title) < 0
    ensures !ItemsTitled(subs, title)
  {
    hide HasItems;
  }

  lemma {:induction false} MergeLoose(merged: seq<Sub>, b: Sub, title: string)
    requires Distinct(merged)
    ensures LooseUnder(MergeInto(merged, b), title)
         == LooseUnder(merged, title) + (if b.title == title && !ItemsTitled(merged, title) then Loose(b.lines) else [])
  {
    hide Compacted, Trim, Appended, Gather, Loose, HasItems, Distinct, ItemsTitled, AllBlank;
    var c, i := Compacted(Trim(Texts(b.lines))), LastTitled(merged, b.title);
    CompactedWords(b);
    LooseCompacted(b);
    if c == [] {
      LooseBlanks(b.lines);
    } else if i >= 0 {
      LooseJoined(merged, i, b, c, title);
    } else {
      NotTitled(merged, b.title);
      GatherEnd(merged, Sub(b.title, Synthetic(c)), title, Loose);
    }
  }

  /** No subsection with this title and prose in front comes behind one with items. */
  predicate CleanUnder(subs: seq<Sub>, title: string) {
    forall i, j :: 0 <= i < j < |subs| && subs[i].title == subs[j].title == title && HasItems(subs[i].lines)
      ==> StartsClean(subs[j].lines)
  }

  lemma {:induction false} CleanUnderEnd(subs: seq<Sub>, b: Sub, title: string)
    ensures CleanUnder(subs + [b], title)
       <==> CleanUnder(subs, title) && (b.title == title && ItemsTitled(subs, title) ==> StartsClean(b.lines))
  {
    hide HasItems, StartsClean;
    var all, n := subs + [b], |subs|;
    assert forall i :: 0 <= i < n ==> all[i] == subs[i];
    if CleanUnder(subs, title) && (b.title == title && ItemsTitled(subs, title) ==> StartsClean(b.lines)) {
      forall i, j | 0 <= i < j < |all| && all[i].title == all[j].title == title && HasItems(all[i].lines)
        ensures StartsClean(all[j].lines)
      {
        if j == n { assert subs[i].title == title && HasItems(subs[i].lines); }
      }
    }
    if CleanUnder(all, title) && b.title == title && ItemsTitled(subs, title) {
      var i :| 0 <= i < n && subs[i].title == title && HasItems(subs[i].lines);
      assert all[i].title == all[n].title == title && HasItems(all[i].lines);
    }
  }

  /** Merging keeps the loose lines under a title exactly when it merges none of them behind an item there. */
  lemma {:induction false} MergedLoose(subs: seq<Sub>, title: string)
    ensures LooseUnder(MergeAll(subs), title) == LooseUnder(subs, title) <==> CleanUnder(subs, title)
    ensures LooseUnder(MergeAll(subs), title) == LooseUnder(subs, title)
         || |LooseUnder(MergeAll(subs), title)| < |LooseUnder(subs, title)|
  {
    hide MergeInto, Loose, HasItems, StartsClean, CleanUnder, ItemsTitled;
    if subs == [] {
      assert CleanUnder(subs, title) by { NothingUnder(title); }
    } else {
      var front, b := subs[..|subs| - 1], subs[|subs| - 1];
      MergedLoose(front, title);
      MergedDistinct(front);
      MergeLoose(MergeAll(front), b, title);
      MergedTitles(front, title);
      assert subs == front + [b];
      CleanUnderEnd(front, b, title);
      LooseMeans(b.lines);
    }
  }

  lemma {:induction false} NothingUnder(title: string)
    ensures CleanUnder([], title)
  {
  }

  lemma {:induction false} CleanUnderAll(subs: seq<Sub>)
    ensures NoProseMerge(subs) <==> forall title :: CleanUnder(subs, title)
  {
    hide HasItems, StartsClean;
    if forall title :: CleanUnder(subs, title) {
      forall i, j | 0 <= i < j < |subs| && subs[i].title == subs[j].title && HasItems(subs[i].lines)
        ensures StartsClean(subs[j].lines)
      {
        assert CleanUnder(subs, subs[i].title);
      }
    }
  }

  /** Normalizing keeps the lines outside of items, title by title, exactly when no prose is merged behind an item. */
  lemma {:induction false} NormalizedLoose(s: Section)
    ensures NoProseMerge(s.subs)
       <==> forall title :: LooseUnder(Normalized(s).subs, title) == LooseUnder(s.subs, title)
  {
    hide MergeAll, Gather, CleanUnder, Loose, NoProseMerge;
    CleanUnderAll(s.subs);
    forall title
      ensures LooseUnder(Normalized(s).subs, title) == LooseUnder(s.subs, title) <==> CleanUnder(s.subs, title)
    {
      MergedLoose(s.subs, title);
      MergedDistinct(s.subs);
      if s.title == UNRELEASED {
        SortKeeps(MergeAll(s.subs), SubAfter);
        DistinctPermuted(MergeAll(s.subs), Normalized(s).subs);
        GatherPermuted(Normalized(s).subs, MergeAll(s.subs), title, Loose);
      }
    }
  }

  // ----- titles -----

  predicate Titled(subs: seq<Sub>, title: string) { exists i :: 0 <= i < |subs| && subs[i].title == title }

  predicate AllSolid(subs: seq<Sub>) { forall i :: 0 <= i < |subs| ==> !AllBlank(Texts(subs[i].lines)) }

  lemma {:induction false} WordsMean(ls: seq<Line>)
    ensures AllBlank(Texts(ls)) <==> Words(ls) == []
  {
    NoneSolid(Texts(ls));
  }

  /** Where no subsection is blank and titles do not repeat, the titles are those with lines under them. */
  lemma {:induction false} TitledWhen(subs: seq<Sub>, title: string)
    requires Distinct(subs) && AllSolid(subs)
    ensures Titled(subs, title) <==> Under(subs, title) != []
  {
    hide Words, Gather, AllBlank;
    if i :| 0 <= i < |subs| && subs[i].title == title {
      GatherDistinct(subs, i, Words);
      WordsMean(subs[i].lines);
    } else {
      GatherNone(subs, title, Words);
    }
  }

  lemma {:induction false} MergedSolid(subs: seq<Sub>)
    ensures AllSolid(MergeAll(subs))
  {
    hide MergeInto, AllBlank;
    if subs != [] {
      var n := |subs| - 1;
      MergedSolid(subs[..n]);
      MergeSolid(MergeAll(subs[..n]), subs[n]);
    }
  }

  lemma {:induction false} MergeSolid(merged: seq<Sub>, b: Sub)
    requires AllSolid(merged)
    ensures AllSolid(MergeInto(merged, b))
  {
    hide Compacted, Trim, Appended, Words, AllBlank;
    var c, i := Compacted(Trim(Texts(b.lines))), LastTitled(merged, b.title);
    CompactedWords(b);
    if c != [] {
      WordsMean(b.lines);
      if i >= 0 {
        AppendedWords(merged[i].lines, c);
        WordsMean(Appended(merged[i].lines, c));
      } else {
        SyntheticWords(c);
        WordsMean(Synthetic(c));
      }
    }
  }

  /** After normalizing, a title is there exactly when it had lines under it. */
  lemma {:induction false} NormalizedTitles(s: Section, title: string)
    ensures Titled(Normalized(s).subs, title) <==> Under(s.subs, title) != []
    ensures AllSolid(Normalized(s).subs)
  {
    hide MergeAll, Gather, AllBlank;
    var subs := MergeAll(s.subs);
    MergedSolid(s.subs);
    NormalizedShape(s);
    NormalizedText(s);
    if s.title == UNRELEASED {
      SortKeeps(subs, SubAfter);
      forall i | 0 <= i < |Normalized(s).subs| ensures !AllBlank(Texts(Normalized(s).subs[i].lines)) {
        assert Normalized(s).subs[i] in multiset(subs);
      }
    }
    TitledWhen(Normalized(s).subs, title);
  }

  // ----- taking items out and putting them in -----

  /** Taking items out leaves the loose lines. */
  lemma {:induction false} RestLoose(p: Pick, subs: seq<Sub>, title: string)
    ensures LooseUnder(RestSubs(p, subs), title) == LooseUnder(subs, title)
  {
    hide Rest, Chunks, Lead, NonBlank;
    if subs != [] {
      var n := |subs| - 1;
      RestLoose(p, subs[..n], title);
      assert RestSubs(p, subs)[..n] == RestSubs(p, subs[..n]);
      RestItems(p, subs[n].lines);
    }
  }

  /** The last subsection with the item's title has it. */
  predicate Present(subs: seq<Sub>, m: Moved) {
    var i := LastTitled(subs, m.title);
    i >= 0 && m.key in ItemKeys(subs[i].lines)
  }

  lemma {:induction false} KeyLines(k: ItemKey)
    requires IsKey(k)
    ensures Trim(k) == k && k != [] && Loose(Synthetic(k)) == [] && HasItems(Synthetic(k))
  {
    hide Trim;
    KeyOfKey(k);
    var ls := Synthetic(k);
    assert ls[0].text == k[0] && Lead(AtItem, ls) == [];
  }

  /** Lines put at the end of the last subsection with a title come behind all lines under it. */
  lemma {:induction false} LastReplacedText(subs: seq<Sub>, i: nat, b: Sub, title: string)
    requires i < |subs| && b.title == subs[i].title && i == LastTitled(subs, b.title)
    requires Words(subs[i].lines) <= Words(b.lines) && Loose(b.lines) == Loose(subs[i].lines)
    ensures Under(subs[i := b], title)
         == Under(subs, title) + (if title == b.title then Words(b.lines)[|Words(subs[i].lines)|..] else [])
    ensures LooseUnder(subs[i := b], title) == LooseUnder(subs, title)
  {
    hide Gather, Words, Loose;
    GatherSplit(subs, i, b, title, Words);
    GatherSplit(subs, i, b, title, Loose);
    if title == b.title {
      GatherNone(subs[i + 1..], title, Words);
    }
  }

  lemma {:induction false} AddedText(ls: seq<Line>, k: ItemKey)
    requires IsKey(k)
    ensures Words(AddTo(ls, k)) == Words(ls) + (if k in ItemKeys(ls) then [] else NonBlank(k))
    ensures Loose(AddTo(ls, k)) == Loose(ls) && k in ItemKeys(AddTo(ls, k))
  {
    hide IsKey, Words, Loose, ItemKeys, Appended, HasItems, NonBlank;
    KeyLines(k);
    AppendedWords(ls, k);
    LooseAppended(ls, k);
    AddedPresent(ls, k);
  }

  /** An item goes behind all lines under its title, unless it is there; under other titles nothing changes. */
  lemma {:induction false} AddItemText(subs: seq<Sub>, m: Moved, title: string)
    requires IsKey(m.key)
    ensures Under(AddItem(subs, m), title)
         == Under(subs, title) + (if title == m.title && !Present(subs, m) then NonBlank(m.key) else [])
    ensures LooseUnder(AddItem(subs, m), title) == LooseUnder(subs, title)
    ensures Present(AddItem(subs, m), m)
  {
    hide IsKey, Gather, Words, Loose, ItemKeys, AddTo, WithSub, NonBlank;
    var with := WithSub(subs, m.title);
    var i := LastTitled(with, m.title);
    var b := Sub(m.title, AddTo(with[i].lines, m.key));
    WithText(subs, m, title);
    AddedText(with[i].lines, m.key);
    LastReplacedText(with, i, b, title);
    LastStays(with, i, b);
  }

  lemma {:induction false} LastStays(subs: seq<Sub>, i: nat, b: Sub)
    requires i < |subs| && i == LastTitled(subs, b.title)
    ensures LastTitled(subs[i := b], b.title) == i
  {
    assert subs[i := b][i].title == b.title;
  }

  lemma {:induction false} AddedPresent(ls: seq<Line>, k: ItemKey)
    requires IsKey(k)
    ensures k in ItemKeys(AddTo(ls, k))
  {
    hide ItemKeys, Appended;
    KeyOfKey(k);
    if !HasItem(ls, k) {
      AppendedItems(ls, k);
      OneKey(k);
    }
  }

  lemma {:induction false} OneKey(k: ItemKey)
    requires IsKey(k)
    ensures ItemKeys(Synthetic(k)) == [k] && StartsClean(Synthetic(k))
  {
    hide IsKey, Chunks, Lead, Key;
    assert Flatten([k]) == k by { assert [k][1..] == [] && Flatten([k]) == k + Flatten<Text>([]); }
    KeysFlat([k]);
    KeysMean(Synthetic(k));
  }

  lemma {:induction false} WithText(subs: seq<Sub>, m: Moved, title: string)
    requires IsKey(m.key)
    ensures var with := WithSub(subs, m.title); var i := LastTitled(with, m.title);
      && Under(with, title) == Under(subs, title) && LooseUnder(with, title) == LooseUnder(subs, title)
      && (m.key in ItemKeys(with[i].lines) <==> Present(subs, m))
  {
    hide IsKey, Gather;
    if LastTitled(subs, m.title) < 0 {
      var b := Sub(m.title, []);
      GatherEnd(subs, b, title, Words);
      GatherEnd(subs, b, title, Loose);
      NothingThere();
      var with := subs + [b];
      assert with[|subs|].title == m.title;
    }
  }

  lemma {:induction false} NothingThere()
    ensures Words([]) == [] && Loose([]) == [] && ItemKeys([]) == []
  {
  }

  lemma {:induction false} PresentStays(subs: seq<Sub>, m: Moved, other: Moved)
    requires Present(subs, m) && IsKey(other.key)
    ensures Present(AddItem(subs, other), m)
  {
    hide IsKey, ItemKeys, Appended;
    var with := WithSub(subs, other.title);
    var i := LastTitled(with, other.title);
    var j := LastTitled(subs, m.title);
    var lines := AddTo(with[i].lines, other.key);
    var now := with[i := Sub(other.title, lines)];
    assert with[j] == subs[j] && now[j].title == m.title;
    AppendedItems(with[i].lines, other.key);
    OneKey(other.key);
    LastIs(now, m.title, j);
  }

  lemma {:induction false} LastIs(subs: seq<Sub>, title: string, i: nat)
    requires i < |subs| && subs[i].title == title && forall j :: i < j < |subs| ==> subs[j].title != title
    ensures LastTitled(subs, title) == i
  {
  }

  /** All that is put in arrives under its own title, and no loose line is touched. */
  lemma {:induction false} AddAllText(subs: seq<Sub>, moved: seq<Moved>)
    requires forall m :: m in moved ==> IsKey(m.key)
    ensures forall m :: m in moved || Present(subs, m) ==> Present(AddAll(subs, moved), m)
    ensures forall title :: LooseUnder(AddAll(subs, moved), title) == LooseUnder(subs, title)
    decreases |moved|
  {
    hide IsKey, AddItem, Gather, Present;
    if moved != [] {
      var first, rest := moved[0], moved[1..];
      assert moved == [first] + rest;
      AddAllText(AddItem(subs, first), rest);
      AddItemText(subs, first, first.title);
      forall m | Present(subs, m) ensures Present(AddItem(subs, first), m) { PresentStays(subs, m, first); }
      forall title ensures LooseUnder(AddItem(subs, first), title) == LooseUnder(subs, title) {
        AddItemText(subs, first, title);
      }
    }
  }

  // ----- items and loose lines by title -----

  datatype LooseLine = LooseLine(title: string, text: Text)

  function Tagged(title: string, ts: seq<Text>): (r: seq<LooseLine>)
    ensures |r| == |ts| && forall i :: 0 <= i < |ts| ==> r[i] == LooseLine(title, ts[i])
  {
    seq(|ts|, i requires 0 <= i < |ts| => LooseLine(title, ts[i]))
  }

  function TitledBag(subs: seq<Sub>): multiset<Moved> {
    if subs == [] then multiset{}
    else
      var n := |subs| - 1;
      TitledBag(subs[..n]) + multiset(Moves(subs[n].title, ItemKeys(subs[n].lines)))
  }

  function LooseBag(subs: seq<Sub>): multiset<LooseLine> {
    if subs == [] then multiset{}
    else
      var n := |subs| - 1;
      LooseBag(subs[..n]) + multiset(Tagged(subs[n].title, Loose(subs[n].lines)))
  }

  function Only(subs: seq<Sub>, title: string): seq<Sub> {
    if subs == [] then []
    else
      var n := |subs| - 1;
      Only(subs[..n], title) + (if subs[n].title == title then [subs[n]] else [])
  }

  function ItemsUnder(subs: seq<Sub>, title: string): multiset<ItemKey> { SubsBag(Only(subs, title)) }

  lemma {:induction false} MovesCount(title: string, keys: seq<ItemKey>, other: string, k: ItemKey)
    ensures multiset(Moves(title, keys))[Moved(other, k)] == if other == title then multiset(keys)[k] else 0
  {
    if keys != [] {
      var n := |keys| - 1;
      MovesCount(title, keys[..n], other, k);
      assert keys == keys[..n] + [keys[n]];
      assert Moves(title, keys) == Moves(title, keys[..n]) + [Moved(title, keys[n])];
    }
  }

  lemma {:induction false} TaggedCount(title: string, ts: seq<Text>, other: string, t: Text)
    ensures multiset(Tagged(title, ts))[LooseLine(other, t)] == if other == title then multiset(ts)[t] else 0
  {
    if ts != [] {
      var n := |ts| - 1;
      TaggedCount(title, ts[..n], other, t);
      assert ts == ts[..n] + [ts[n]];
      assert Tagged(title, ts) == Tagged(title, ts[..n]) + [LooseLine(title, ts[n])];
    }
  }

  lemma {:induction false} TitledCount(subs: seq<Sub>, title: string, k: ItemKey)
    ensures TitledBag(subs)[Moved(title, k)] == ItemsUnder(subs, title)[k]
  {
    hide ItemKeys;
    if subs != [] {
      var n := |subs| - 1;
      TitledCount(subs[..n], title, k);
      MovesCount(subs[n].title, ItemKeys(subs[n].lines), title, k);
      SubsBagAppend(Only(subs[..n], title), [subs[n]]);
      SubsBagOne(subs[n]);
      assert Only(subs[..n], title) + [] == Only(subs[..n], title);
    }
  }

  lemma {:induction false} LooseCount(subs: seq<Sub>, title: string, t: Text)
    ensures LooseBag(subs)[LooseLine(title, t)] == multiset(LooseUnder(subs, title))[t]
  {
    hide Loose;
    if subs != [] {
      var n := |subs| - 1;
      LooseCount(subs[..n], title, t);
      TaggedCount(subs[n].title, Loose(subs[n].lines), title, t);
    }
  }

  /** Items and loose lines by title are the same when they are under each title. */
  lemma {:induction false} BagsByTitle(a: seq<Sub>, b: seq<Sub>)
    ensures (forall title :: ItemsUnder(a, title) == ItemsUnder(b, title)) ==> TitledBag(a) == TitledBag(b)
    ensures (forall title :: LooseUnder(a, title) == LooseUnder(b, title)) ==> LooseBag(a) == LooseBag(b)
  {
    hide Gather, SubsBag, Only, TitledBag, LooseBag;
    forall m: Moved
      ensures TitledBag(a)[m] == ItemsUnder(a, m.title)[m.key] && TitledBag(b)[m] == ItemsUnder(b, m.title)[m.key]
    {
      TitledCount(a, m.title, m.key);
      TitledCount(b, m.title, m.key);
    }
    forall l: LooseLine
      ensures LooseBag(a)[l] == multiset(LooseUnder(a, l.title))[l.text]
      ensures LooseBag(b)[l] == multiset(LooseUnder(b, l.title))[l.text]
    {
      LooseCount(a, l.title, l.text);
      LooseCount(b, l.title, l.text);
    }
  }

  lemma {:induction false} OnlyAppend(a: seq<Sub>, b: seq<Sub>, title: string)
    ensures Only(a + b, title) == Only(a, title) + Only(b, title)
  {
    if b == [] {
      assert a + b == a;
    } else {
      var n := |b| - 1;
      OnlyAppend(a, b[..n], title);
      assert (a + b)[..|a + b| - 1] == a + b[..n];
    }
  }

  lemma {:induction false} OnlyOne(b: Sub, title: string)
    ensures Only([b], title) == if b.title == title then [b] else []
  {
    assert [b][..0] == [];
  }

  lemma {:induction false} OnlyNone(subs: seq<Sub>, title: string)
    requires forall i :: 0 <= i < |subs| ==> subs[i].title != title
    ensures Only(subs, title) == []
  {
    if subs != [] { OnlyNone(subs[..|subs| - 1], title); }
  }

  lemma {:induction false} OnlySplit(subs: seq<Sub>, i: nat, title: string)
    requires Distinct(subs) && i < |subs|
    ensures Only(subs, title) == if subs[i].title == title then [subs[i]] else Only(subs[..i] + subs[i + 1..], title)
  {
    hide Only;
    assert subs == subs[..i] + ([subs[i]] + subs[i + 1..]);
    OnlyAppend(subs[..i], [subs[i]] + subs[i + 1..], title);
    OnlyAppend([subs[i]], subs[i + 1..], title);
    OnlyAppend(subs[..i], subs[i + 1..], title);
    OnlyOne(subs[i], title);
    if subs[i].title == title {
      OnlyNone(subs[..i], title);
      OnlyNone(subs[i + 1..], title);
    }
  }

  lemma {:induction false} OnlyReplaced(merged: seq<Sub>, i: nat, b: Sub, title: string)
    requires Distinct(merged) && i < |merged| && b.title == merged[i].title
    ensures Only(merged[i := b], title) == if b.title == title then [b] else Only(merged, title)
    ensures b.title == title ==> Only(merged, title) == [merged[i]]
  {
    hide Only;
    var now := merged[i := b];
    OnlySplit(merged, i, title);
    OnlySplit(now, i, title);
    assert now[..i] == merged[..i] && now[i + 1..] == merged[i + 1..];
  }

  lemma {:induction false} OnlyMergeInto(merged: seq<Sub>, b: Sub, title: string)
    requires Distinct(merged)
    ensures Only(MergeInto(merged, b), title)
         == if b.title == title then MergeInto(Only(merged, title), b) else Only(merged, title)
  {
    hide Compacted, Trim, Appended, Only, Distinct;
    var c, i := Compacted(Trim(Texts(b.lines))), LastTitled(merged, b.title);
    if c == [] {
    } else if i >= 0 {
      OnlyReplaced(merged, i, Sub(b.title, Appended(merged[i].lines, c)), title);
      MergeIntoOne(merged[i], b, c);
    } else {
      var one := Sub(b.title, Synthetic(c));
      OnlyAppend(merged, [one], title);
      OnlyOne(one, title);
      if b.title == title { OnlyNone(merged, title); }
    }
  }

  lemma {:induction false} MergeIntoOne(was: Sub, b: Sub, c: seq<Text>)
    requires was.title == b.title && c == Compacted(Trim(Texts(b.lines))) && c != []
    ensures MergeInto([was], b) == [Sub(b.title, Appended(was.lines, c))]
  {
    hide Compacted, Trim, Appended;
    LastIs([was], b.title, 0);
  }

  lemma {:induction false} OnlyMergeAll(subs: seq<Sub>, title: string)
    ensures Only(MergeAll(subs), title) == MergeAll(Only(subs, title))
  {
    hide MergeInto;
    if subs != [] {
      var n := |subs| - 1;
      OnlyMergeAll(subs[..n], title);
      MergedDistinct(subs[..n]);
      OnlyMergeInto(MergeAll(subs[..n]), subs[n], title);
      var front := Only(subs[..n], title);
      assert (front + [subs[n]])[..|front|] == front && front + [] == front;
    }
  }

  lemma {:induction false} OnlyTitled(subs: seq<Sub>, title: string)
    ensures forall i :: 0 <= i < |Only(subs, title)| ==> Only(subs, title)[i].title == title
    ensures NoProseMerge(subs) ==> NoProseMerge(Only(subs, title))
  {
    hide HasItems, StartsClean;
    if subs != [] {
      var n := |subs| - 1;
      OnlyTitled(subs[..n], title);
      var front := Only(subs[..n], title);
      assert subs == subs[..n] + [subs[n]];
      ProseStep(subs[..n], subs[n]);
      ProseStep(front, subs[n]);
      OnlyItems(subs[..n], title);
      assert front + [] == front;
    }
  }

  lemma {:induction false} OnlyItems(subs: seq<Sub>, title: string)
    ensures ItemsTitled(Only(subs, title), title) <==> ItemsTitled(subs, title)
  {
    hide ItemsTitled, HasItems;
    if subs != [] {
      var n := |subs| - 1;
      OnlyItems(subs[..n], title);
      assert subs == subs[..n] + [subs[n]];
      TitledEnd(subs[..n], subs[n], title);
      TitledEnd(Only(subs[..n], title), subs[n], title);
      assert Only(subs[..n], title) + [] == Only(subs[..n], title);
    }
  }

  lemma {:induction false} OnlyPermuted(a: seq<Sub>, b: seq<Sub>, title: string)
    requires Distinct(a) && Distinct(b) && multiset(a) == multiset(b)
    ensures Only(a, title) == Only(b, title)
  {
    hide Only;
    if i :| 0 <= i < |a| && a[i].title == title {
      assert a[i] in multiset(b);
      var j :| 0 <= j < |b| && b[j] == a[i];
      OnlySplit(a, i, title);
      OnlySplit(b, j, title);
    } else {
      forall j | 0 <= j < |b| ensures b[j].title != title {
        assert b[j] in multiset(a);
        var i :| 0 <= i < |a| && a[i] == b[j];
      }
      OnlyNone(a, title);
      OnlyNone(b, title);
    }
  }

  /** Where no prose is merged behind an item, items and loose lines stay under their titles. */
  lemma {:induction false} NormalizedBags(s: Section)
    requires NoProseMerge(s.subs)
    ensures TitledBag(Normalized(s).subs) == TitledBag(s.subs) && LooseBag(Normalized(s).subs) == LooseBag(s.subs)
  {
    hide MergeAll, Gather, SubsBag, Only, NoProseMerge, TitledBag, LooseBag;
    NormalizedLoose(s);
    forall title ensures ItemsUnder(Normalized(s).subs, title) == ItemsUnder(s.subs, title) {
      OnlyMergeAll(s.subs, title);
      OnlyTitled(s.subs, title);
      MergedBag(Only(s.subs, title));
      MergedDistinct(s.subs);
      if s.title == UNRELEASED {
        SortKeeps(MergeAll(s.subs), SubAfter);
        DistinctPermuted(MergeAll(s.subs), Normalized(s).subs);
        OnlyPermuted(Normalized(s).subs, MergeAll(s.subs), title);
      }
    }
    BagsByTitle(Normalized(s).subs, s.subs);
  }

  // ----- rendering and parsing again -----

  function Untidy(ts: seq<TidySub>): (r: seq<Sub>)
    ensures |r| == |ts| && forall i :: 0 <= i < |ts| ==> r[i] == Sub(ts[i].title, Synthetic(ts[i].lines))
  {
    seq(|ts|, i requires 0 <= i < |ts| => Sub(ts[i].title, Synthetic(ts[i].lines)))
  }

  lemma {:induction false} UntidyStep(subs: seq<Sub>)
    requires subs != []
    ensures var t := Trim(Texts(subs[0].lines));
      Untidy(TidySubs(subs)) == (if t == [] then [] else [Sub(subs[0].title, Synthetic(t))]) + Untidy(TidySubs(subs[1..]))
  {
    hide Trim;
    TidySubsStep(subs);
  }

  lemma {:induction false} TidiedPart(ls: seq<Line>)
    ensures var t := Synthetic(Trim(Texts(ls)));
      && Words(t) == Words(ls) && Loose(t) == Loose(ls) && LinesBag(t) == LinesBag(ls)
      && (Trim(Texts(ls)) == [] ==> Words(ls) == [] && Loose(ls) == [] && LinesBag(ls) == multiset{})
  {
    hide Trim, Loose, NonBlank, ItemKeys;
    SyntheticWords(Trim(Texts(ls)));
    NonBlankTrim(Texts(ls));
    LooseTrimmed(ls);
    TrimmedItems(ls);
    TrimIsEmpty(Texts(ls));
    NoneLeft();
    if Trim(Texts(ls)) == [] {
      LooseBlanks(ls);
      BlankItems(ls);
    }
  }

  lemma {:induction false} TidyKeeps(subs: seq<Sub>, title: string)
    ensures var now := Untidy(TidySubs(subs));
      && Under(now, title) == Under(subs, title) && LooseUnder(now, title) == LooseUnder(subs, title)
      && ItemsUnder(now, title) == ItemsUnder(subs, title)
  {
    hide Trim, Words, Loose, LinesBag, Gather, Only, SubsBag, TidySubs, Untidy;
    if subs == [] {
      TidyNone();
    } else {
      var b, rest := subs[0], subs[1..];
      assert subs == [b] + rest;
      TidyKeeps(rest, title);
      UntidyStep(subs);
      TidiedPart(b.lines);
      var t := Trim(Texts(b.lines));
      var first := Sub(b.title, Synthetic(t));
      var more := Untidy(TidySubs(rest));
      ManyUnder(b, rest, title);
      if t == [] { assert [] + more == more; } else { ManyUnder(first, more, title); }
    }
  }

  lemma {:induction false} TidyNone()
    ensures Untidy(TidySubs([])) == []
  {
  }

  /** What the first subsection has under a title comes first. */
  lemma {:induction false} ManyUnder(b: Sub, rest: seq<Sub>, title: string)
    ensures var mine := b.title == title;
      && Under([b] + rest, title) == (if mine then Words(b.lines) else []) + Under(rest, title)
      && LooseUnder([b] + rest, title) == (if mine then Loose(b.lines) else []) + LooseUnder(rest, title)
      && ItemsUnder([b] + rest, title) == (if mine then LinesBag(b.lines) else multiset{}) + ItemsUnder(rest, title)
  {
    hide Words, Loose, LinesBag, Gather, Only;
    GatherAppend([b], rest, title, Words);
    GatherAppend([b], rest, title, Loose);
    GatherFirst(b, title, Words);
    GatherFirst(b, title, Loose);
    OnlyAppend([b], rest, title);
    OnlyOne(b, title);
    SubsBagAppend(Only([b], title), Only(rest, title));
    if b.title == title { SubsBagOne(b); }
  }

  lemma {:induction false} GatherFirst(b: Sub, title: string, part: seq<Line> -> seq<Text>)
    ensures Gather([b], title, part) == if b.title == title then part(b.lines) else []
  {
    GatherEnd([], b, title, part);
    assert [] + [b] == [b] && [] + part(b.lines) == part(b.lines);
  }
}
