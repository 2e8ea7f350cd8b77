/**
 The document that the fixer updates in place, one method per pass.
 */
module ChangelogFixer {
  import opened ChangelogText
  import opened ChangelogItems
  import opened ChangelogMerge
  import opened ChangelogDocument
  import opened ChangelogSections
  import opened ChangelogSort
  import opened StableSorting
  import opened ChangelogNormal
  import opened ChangelogPromotion
  import opened ChangelogFix

  // ----- promotion, section by section -----

  /** The sections once the first `n` of them were visited. */
  function Midway(p: Pick, ss: seq<Section>, n: nat): seq<Section>
    requires n <= |ss|
  {
    Give(Lefts(p, ss[..n]) + ss[n..], Find(ss), Taken(p, ss[..n]))
  }

  /** A section made in front moves all others by one. */
  function Shift(p: Pick, ss: seq<Section>, n: nat): nat
    requires n <= |ss|
  {
    if Find(ss) < 0 && Taken(p, ss[..n]) != [] then 1 else 0
  }

  /** One section's part done: its first `j` subsections lost their items, which were given away. */
  function PartDone(p: Pick, ss: seq<Section>, at: nat, j: nat): seq<Section>
    requires at < |ss| && j <= |ss[at].subs|
  {
    var s := ss[at];
    Give(ss[at := s.(subs := RestSubs(p, s.subs[..j]) + s.subs[j..])], Find(ss), TakenSubs(p, s.subs[..j]))
  }

  function PartShift(p: Pick, ss: seq<Section>, at: nat, j: nat): nat
    requires at < |ss| && j <= |ss[at].subs|
  {
    if Find(ss) < 0 && TakenSubs(p, ss[at].subs[..j]) != [] then 1 else 0
  }

  lemma {:induction false} PartStart(p: Pick, ss: seq<Section>, at: nat)
    requires at < |ss|
    ensures PartDone(p, ss, at, 0) == ss && PartShift(p, ss, at, 0) == 0
    ensures TakenSubs(p, ss[at].subs[..0]) == []
  {
    var s := ss[at];
    assert s.subs[..0] == [] && RestSubs(p, []) == [];
    assert RestSubs(p, s.subs[..0]) + s.subs[0..] == s.subs;
  }

  lemma {:induction false} PartSub(p: Pick, ss: seq<Section>, at: nat, j: nat)
    requires at < |ss| && j < |ss[at].subs| && Find(ss) != at
    ensures var cur := at + PartShift(p, ss, at, j); var now := PartDone(p, ss, at, j);
      cur < |now| && j < |now[cur].subs| && now[cur].subs[j] == ss[at].subs[j]
  {
    hide AddAll, TakenSubs;
  }

  /** One more subsection, nothing taken. */
  lemma {:induction false} PartSame(p: Pick, ss: seq<Section>, at: nat, j: nat)
    requires at < |ss| && j < |ss[at].subs| && TakenKeys(p, ss[at].subs[j].lines) == []
    ensures PartDone(p, ss, at, j + 1) == PartDone(p, ss, at, j)
    ensures PartShift(p, ss, at, j + 1) == PartShift(p, ss, at, j)
    ensures TakenSubs(p, ss[at].subs[..j + 1]) == TakenSubs(p, ss[at].subs[..j])
  {
    hide AddAll, TakenSubs, Rest, TakenKeys;
    var s := ss[at];
    NothingRest(p, s.subs[j].lines);
    assert s.subs[..j + 1] == s.subs[..j] + [s.subs[j]];
    TakenSubsEnd(p, s.subs[..j], s.subs[j]);
    assert TakenSubs(p, s.subs[..j]) + Moves(s.subs[j].title, []) == TakenSubs(p, s.subs[..j]);
    assert RestSubs(p, s.subs[..j + 1]) + s.subs[j + 1..] == RestSubs(p, s.subs[..j]) + s.subs[j..];
  }

  lemma {:induction false} NothingRest(p: Pick, ls: seq<Line>)
    requires TakenKeys(p, ls) == []
    ensures Rest(p, ls) == ls
  {
    hide Chunks, Picked, Rest, Key;
    NothingTaken(p, ls);
  }

  /** One more subsection, some items taken and given. */
  lemma {:induction false} PartGive(p: Pick, ss: seq<Section>, at: nat, j: nat)
    requires at < |ss| && j < |ss[at].subs| && Find(ss) != at && TakenKeys(p, ss[at].subs[j].lines) != []
    ensures var b := ss[at].subs[j]; var more := Moves(b.title, TakenKeys(p, b.lines));
      var now := PartDone(p, ss, at, j); var u := Find(ss); var v := if u >= 0 then u else 0;
      var cur := at + PartShift(p, ss, at, j);
      var cut := now[cur := now[cur].(subs := now[cur].subs[j := Sub(b.title, Rest(p, b.lines))])];
      PartDone(p, ss, at, j + 1) == if u < 0 && PartShift(p, ss, at, j) == 0 then [Receive(NEW_UNRELEASED, more)] + cut
                                    else cut[v := Receive(cut[v], more)]
    ensures PartShift(p, ss, at, j + 1) == if Find(ss) < 0 then 1 else 0
    ensures |TakenSubs(p, ss[at].subs[..j + 1])|
         == |TakenSubs(p, ss[at].subs[..j])| + |TakenKeys(p, ss[at].subs[j].lines)|
  {
    hide AddAll, TakenSubs, Rest, TakenKeys, Find;
    var s, u, b := ss[at], Find(ss), ss[at].subs[j];
    var more := Moves(b.title, TakenKeys(p, b.lines));
    assert s.subs[..j + 1] == s.subs[..j] + [b];
    TakenSubsEnd(p, s.subs[..j], b);
    var part := s.(subs := RestSubs(p, s.subs[..j]) + s.subs[j..]);
    var next := s.(subs := RestSubs(p, s.subs[..j + 1]) + s.subs[j + 1..]);
    assert part.subs[j := Sub(b.title, Rest(p, b.lines))] == next.subs;
    GiveMore(ss[at := part], at, next, u, TakenSubs(p, s.subs[..j]), more);
    assert ss[at := part][at := next] == ss[at := next];
  }

  lemma {:induction false} PartEnd(p: Pick, ss: seq<Section>, at: nat)
    requires at < |ss| && Find(ss) != at
    ensures var s := ss[at];
      PartDone(p, ss, at, |s.subs|) == Give(ss[at := Without(p, s)], Find(ss), TakenSubs(p, s.subs))
    ensures TakenSubs(p, ss[at].subs[..|ss[at].subs|]) == TakenSubs(p, ss[at].subs)
  {
    hide AddAll, TakenSubs, Rest;
    var s := ss[at];
    assert s.subs[..|s.subs|] == s.subs;
    assert RestSubs(p, s.subs) + s.subs[|s.subs|..] == RestSubs(p, s.subs);
  }

  lemma {:induction false} PartFind(p: Pick, ss: seq<Section>, at: nat, j: nat)
    requires at < |ss| && j <= |ss[at].subs|
    ensures Find(PartDone(p, ss, at, j))
         == if TakenSubs(p, ss[at].subs[..j]) == [] || Find(ss) >= 0 then Find(ss) else 0
  {
    hide AddAll, TakenSubs, Find, RestSubs;
    var s := ss[at];
    var part := ss[at := s.(subs := RestSubs(p, s.subs[..j]) + s.subs[j..])];
    SameSectionTitles(ss, part);
    FindGiven(part, Find(ss), TakenSubs(p, s.subs[..j]));
  }

  // ----- promotion, the whole walk -----

  lemma {:induction false} MidwayStart(p: Pick, ss: seq<Section>)
    ensures Midway(p, ss, 0) == ss && Shift(p, ss, 0) == 0 && Taken(p, ss[..0]) == []
  {
    assert ss[..0] == [] && Lefts(p, []) == [];
  }

  lemma {:induction false} MidwayEnd(p: Pick, ss: seq<Section>)
    ensures Midway(p, ss, |ss|) == Promoted(p, ss) && Taken(p, ss[..|ss|]) == Taken(p, ss)
  {
    hide Taken, RestSubs, Give;
    assert ss[..|ss|] == ss && Lefts(p, ss) + ss[|ss|..] == Lefts(p, ss);
  }

  lemma {:induction false} MidwayFind(p: Pick, ss: seq<Section>, n: nat)
    requires n <= |ss|
    ensures |Midway(p, ss, n)| == |ss| + Shift(p, ss, n)
    ensures Find(Midway(p, ss, n)) == if Shift(p, ss, n) == 1 then 0 else Find(ss)
  {
    hide AddAll, Taken, RestSubs, Find;
    var half := Lefts(p, ss[..n]) + ss[n..];
    SameSectionTitles(ss, half);
    FindGiven(half, Find(ss), Taken(p, ss[..n]));
  }

  lemma {:induction false} MidwayTitle(p: Pick, ss: seq<Section>, n: nat, i: nat)
    requires n <= |ss| && i < |ss|
    ensures var now := Midway(p, ss, n); var at := i + Shift(p, ss, n);
      && at < |now| && now[at].title == ss[i].title
      && (ss[i].title != UNRELEASED ==> now[at] == if i < n then Left(p, ss[i]) else ss[i])
  {
    hide AddAll, Taken, RestSubs;
  }

  /** Passing over an Unreleased section. */
  lemma {:induction false} MidwaySkip(p: Pick, ss: seq<Section>, n: nat)
    requires n < |ss| && ss[n].title == UNRELEASED
    ensures Midway(p, ss, n + 1) == Midway(p, ss, n) && Shift(p, ss, n + 1) == Shift(p, ss, n)
    ensures Taken(p, ss[..n + 1]) == Taken(p, ss[..n])
  {
    hide AddAll, Taken, RestSubs;
    assert ss[..n + 1] == ss[..n] + [ss[n]];
    TakenEnd(p, ss[..n], ss[n]);
    assert Taken(p, ss[..n]) + [] == Taken(p, ss[..n]);
    assert Lefts(p, ss[..n + 1]) + ss[n + 1..] == Lefts(p, ss[..n]) + ss[n..];
  }

  /** Doing one released section. */
  lemma {:induction false} MidwayStep(p: Pick, ss: seq<Section>, n: nat)
    requires n < |ss| && ss[n].title != UNRELEASED
    ensures var now := Midway(p, ss, n); var at := n + Shift(p, ss, n);
      && at < |now| && now[at] == ss[n]
      && Midway(p, ss, n + 1) == Give(now[at := Without(p, ss[n])], Find(now), TakenSubs(p, ss[n].subs))
    ensures |Taken(p, ss[..n + 1])| == |Taken(p, ss[..n])| + |TakenSubs(p, ss[n].subs)|
  {
    hide AddAll, Taken, TakenSubs, RestSubs, Find;
    var s, u, moved, more := ss[n], Find(ss), Taken(p, ss[..n]), TakenSubs(p, ss[n].subs);
    assert ss[..n + 1] == ss[..n] + [s];
    TakenEnd(p, ss[..n], s);
    MidwayTitle(p, ss, n, n);
    MidwayFind(p, ss, n);
    var half := Lefts(p, ss[..n]) + ss[n..];
    assert half[n := Without(p, s)] == Lefts(p, ss[..n + 1]) + ss[n + 1..];
    if more != [] {
      GiveMore(half, n, Without(p, s), u, moved, more);
    } else {
      assert moved + more == moved;
    }
  }

  /** Visiting a section again, after a new one pushed it back, changes nothing. */
  lemma {:induction false} MidwayAgain(p: Pick, ss: seq<Section>, n: nat)
    requires 1 <= n <= |ss| && ss[n - 1].title != UNRELEASED
    ensures var now := Midway(p, ss, n); var at := n - 1 + Shift(p, ss, n);
      && at < |now| && TakenSubs(p, now[at].subs) == []
      && Give(now[at := Without(p, now[at])], Find(now), TakenSubs(p, now[at].subs)) == now
  {
    hide AddAll, Taken, TakenSubs, RestSubs, Find;
    MidwayTitle(p, ss, n, n - 1);
    TakenTwice(p, ss[n - 1].subs);
  }

  lemma {:induction false} MidwayNumbered(p: Pick, ss: seq<Section>, n: nat, i: nat)
    requires n <= |ss| && i < |ss| && ss[i].title != UNRELEASED && NumberedSection(ss[i])
    ensures var at := i + Shift(p, ss, n);
      at < |Midway(p, ss, n)| && NumberedSection(Midway(p, ss, n)[at])
  {
    hide Midway, Taken, NumberedSection;
    MidwayTitle(p, ss, n, i);
    WithoutNumbered(p, ss[i]);
  }

  // ----- dropping -----

  predicate ReleasedNumbered(ss: seq<Section>) {
    forall s :: s in ss && s.title != UNRELEASED ==> NumberedSection(s)
  }

  lemma {:induction false} MovedSize(moved: seq<Moved>)
    ensures |MovedBag(moved)| == |moved|
  {
    if moved != [] {
      MovedSize(moved[1..]);
    }
  }

  lemma {:induction false} NothingToDrop(subs: seq<Sub>)
    ensures RestSubs(HasKey({}), subs) == subs
  {
    hide Chunks, Rest, Key;
    forall i | 0 <= i < |subs| ensures Rest(HasKey({}), subs[i].lines) == subs[i].lines {
      NonePicked(HasKey({}), Chunks(AtItem, subs[i].lines));
      NothingTaken(HasKey({}), subs[i].lines);
    }
  }

  lemma {:induction false} RestEnd(p: Pick, subs: seq<Sub>, j: nat)
    requires j < |subs|
    ensures (RestSubs(p, subs[..j]) + subs[j..])[j] == subs[j]
    ensures RestSubs(p, subs[..j + 1]) + subs[j + 1..]
         == (RestSubs(p, subs[..j]) + subs[j..])[j := Sub(subs[j].title, Rest(p, subs[j].lines))]
  {
    hide Rest;
  }

  lemma {:induction false} ReleasedEnd(ss: seq<Section>, i: nat)
    requires i < |ss|
    ensures Bag(Select(ss[..i + 1], false))
         == Bag(Select(ss[..i], false)) + (if ss[i].title == UNRELEASED then multiset{} else SubsBag(ss[i].subs))
  {
    hide Bag, Select, SubsBag;
    assert ss[..i + 1] == ss[..i] + [ss[i]];
    SelectAppend(ss[..i], [ss[i]], false);
    if ss[i].title == UNRELEASED {
      OneSelected(ss[i]);
      assert Select(ss[..i], false) + [] == Select(ss[..i], false);
    } else {
      SelectOne(ss[i], false);
      BagAppend(Select(ss[..i], false), [ss[i]]);
      BagOne(ss[i]);
    }
  }

  lemma {:induction false} RestNone(p: Pick, subs: seq<Sub>)
    ensures subs[..0] == [] && RestSubs(p, []) + subs[0..] == subs
  {
  }

  lemma {:induction false} RestAll(p: Pick, subs: seq<Sub>)
    ensures subs[..|subs|] == subs && RestSubs(p, subs) + subs[|subs|..] == RestSubs(p, subs)
  {
  }

  lemma {:induction false} DroppedSize(p: Pick, ss: seq<Section>, u: nat)
    requires u < |ss|
    ensures |Bag(ss[u := Without(p, ss[u])])| == |Bag(ss)| - |TakenSubs(p, ss[u].subs)|
  {
    hide Bag, SubsBag, RestSubs, TakenSubs;
    BagSplit(ss, u, Without(p, ss[u]));
    SubsRestBag(p, ss[u].subs);
    MovedSize(TakenSubs(p, ss[u].subs));
  }

  // ----- sorting and normalizing -----

  function TitleAfter(version: string -> Version): (Section, Section) -> bool {
    (a: Section, b: Section) => CompareVersionTitlesDesc(version(a.title), version(b.title)) > 0
  }

  /** Unreleased sections first, then the released ones, newest first. */
  function SortedSections(ss: seq<Section>, version: string -> Version): seq<Section> {
    Select(ss, true) + StableSort(Select(ss, false), TitleAfter(version))
  }

  function BlankSubs(subs: seq<Sub>): nat {
    if subs == [] then 0
    else BlankSubs(subs[..|subs| - 1]) + (if AllBlank(Texts(subs[|subs| - 1].lines)) then 1 else 0)
  }

  /** Subsections in a file, and how many of them are blank. */
  function Headings(ss: seq<Section>): nat {
    if ss == [] then 0 else Headings(ss[..|ss| - 1]) + |ss[|ss| - 1].subs|
  }

  function BlankHeadings(ss: seq<Section>): nat {
    if ss == [] then 0 else BlankHeadings(ss[..|ss| - 1]) + BlankSubs(ss[|ss| - 1].subs)
  }

  /** A map from each title to the place of its subsection. */
  ghost predicate Indexed(index: map<string, nat>, subs: seq<Sub>) {
    && (forall t :: t in index <==> LastTitled(subs, t) >= 0)
    && (forall t :: t in index ==> index[t] == LastTitled(subs, t))
  }

  lemma {:induction false} IndexSame(index: map<string, nat>, a: seq<Sub>, b: seq<Sub>)
    requires Indexed(index, a) && |a| == |b| && forall i :: 0 <= i < |a| ==> a[i].title == b[i].title
    ensures Indexed(index, b)
  {
    hide LastTitled;
    forall t ensures LastTitled(a, t) == LastTitled(b, t) {
      SameTitles(a, b, t);
    }
  }

  lemma {:induction false} IndexMore(index: map<string, nat>, subs: seq<Sub>, b: Sub)
    requires Indexed(index, subs)
    ensures Indexed(index[b.title := |subs|], subs + [b])
  {
    hide LastTitled;
    forall t ensures LastTitled(subs + [b], t) == if t == b.title then |subs| else LastTitled(subs, t) {
      LastOfMore(subs, b, t);
    }
  }

  lemma {:induction false} LastOfMore(subs: seq<Sub>, b: Sub, t: string)
    ensures LastTitled(subs + [b], t) == if t == b.title then |subs| else LastTitled(subs, t)
  {
    assert (subs + [b])[..|subs|] == subs;
  }

  /** One round of the merging loop. */
  method MergeSub(normalized: seq<Sub>, index: map<string, nat>, b: Sub)
    returns (now: seq<Sub>, newIndex: map<string, nat>, merged: nat, removed: nat)
    requires Indexed(index, normalized)
    ensures now == MergeInto(normalized, b) && Indexed(newIndex, now)
    ensures removed == (if AllBlank(Texts(b.lines)) then 1 else 0) && merged + removed + |now| == |normalized| + 1
  {
    hide Compacted, Appended, Trim, AllBlank, LastTitled, ItemKeys, HasItems, StartsClean;
    CompactedSub(b);
    var trimmed := TrimBlankLines(Texts(b.lines));
    trimmed := CompactAdjacentListSpacing(trimmed);
    if |trimmed| == 0 { return normalized, index, 0, 1; }
    if b.title in index {
      var existing := index[b.title];
      var lines := AppendSubsectionLines(normalized[existing].lines, trimmed);
      now := normalized[existing := Sub(b.title, lines)];
      IndexSame(index, normalized, now);
      return now, index, 1, 0;
    }
    var one := Sub(b.title, Synthetic(trimmed));
    IndexMore(index, normalized, one);
    return normalized + [one], index[b.title := |normalized|], 0, 0;
  }

  /** Merge subsections with the same title, keeping the place of the first. */
  method NormalizeSection(section: Section) returns (r: Section, merged: nat, removed: nat)
    ensures r == Normalized(section)
    ensures removed == BlankSubs(section.subs) && merged == |section.subs| - removed - |r.subs|
  {
    hide Trim, Indexed, AllBlank, StableSort, TitleOrder, LastTitled, MergeAll, BlankSubs, MergeInto;
    var subsectionByTitle: map<string, nat> := map[];
    var normalized: seq<Sub> := [];
    merged, removed := 0, 0;
    ghost var subs := section.subs;
    NoIndex();
    assert subs[..0] == [];
    for i := 0 to |section.subs|
      invariant normalized == MergeAll(subs[..i]) && Indexed(subsectionByTitle, normalized)
      invariant removed == BlankSubs(subs[..i]) && merged + removed + |normalized| == i
    {
      var b := section.subs[i];
      assert subs[..i + 1] == subs[..i] + [b];
      MergeEnd(subs[..i], b);
      var m, d;
      normalized, subsectionByTitle, m, d := MergeSub(normalized, subsectionByTitle, b);
      merged, removed := merged + m, removed + d;
    }
    assert subs[..|subs|] == subs;
    SortedLength(normalized);
    if section.title == UNRELEASED { normalized := StableSort(normalized, SubAfter); }
    var lead := TrimBlankLines(Texts(section.lead));
    r := section.(lead := Synthetic(lead), subs := normalized);
  }

  lemma {:induction false} NoIndex()
    ensures Indexed(map[], []) && MergeAll([]) == [] && BlankSubs([]) == 0
  {
  }

  lemma {:induction false} SortedLength(subs: seq<Sub>)
    ensures |StableSort(subs, SubAfter)| == |subs|
  {
    SortKeeps(subs, SubAfter);
    assert |multiset(StableSort(subs, SubAfter))| == |multiset(subs)|;
  }

  lemma {:induction false} MergeEnd(front: seq<Sub>, b: Sub)
    ensures MergeAll(front + [b]) == MergeInto(MergeAll(front), b)
    ensures BlankSubs(front + [b]) == BlankSubs(front) + (if AllBlank(Texts(b.lines)) then 1 else 0)
  {
    hide AllBlank, MergeInto;
    assert (front + [b])[..|front|] == front;
  }

  /** All the passes, one after the other. */
  function Fixed(ss: seq<Section>, history: set<ItemKey>, lines: set<nat>, version: string -> Version): seq<Section> {
    SortedSections(NormalizedAll(Promoted(StartsAt(lines), Dropped(ss, history))), version)
  }

  lemma {:induction false} DroppedNumbered(ss: seq<Section>, history: set<ItemKey>)
    requires Numbered(ss)
    ensures ReleasedNumbered(Dropped(ss, history))
  {
    hide NumberedSection;
    var u := Find(ss);
    forall s | s in Dropped(ss, history) && s.title != UNRELEASED ensures NumberedSection(s) {
      var i :| 0 <= i < |ss| && Dropped(ss, history)[i] == s;
      assert i != u && ss[i] in ss;
    }
  }

  class Document {
    var prefix: seq<Line>
    var sections: seq<Section>

    constructor (file: seq<Line>)
      ensures Doc(prefix, sections) == Parse(file)
    {
      var doc := ParseChangelog(file);
      prefix, sections := doc.prefix, doc.sections;
    }

    method CollectReleasedItemKeys() returns (keys: set<ItemKey>)
      ensures keys == set k | k in Bag(Select(sections, false))
    {
      keys := {};
      for i := 0 to |sections|
        invariant forall k :: k in keys <==> k in Bag(Select(sections[..i], false))
      {
        hide SubsBag, Select, Bag;
        ReleasedEnd(sections, i);
        if sections[i].title == UNRELEASED { continue; }
        var more := SectionItemKeys(sections[i]);
        keys := keys + more;
      }
      assert sections[..|sections|] == sections;
    }

    /** Items of Unreleased that a release already has, here or in the history, are dropped. */
    method DropUnreleasedDuplicatesOfReleased(history: set<ItemKey>) returns (dropped: nat)
      requires Numbered(sections)
      modifies `sections
      ensures sections == Dropped(old(sections), history)
      ensures dropped == |Bag(old(sections))| - |Bag(sections)|
    {
      hide Bag, SubsBag, TakenSubs, Increasing, Select, Find, RestSubs;
      var unreleased := Find(sections);
      if unreleased < 0 { return 0; }
      var releasedKeys := CollectReleasedItemKeys();
      releasedKeys := releasedKeys + history;
      ghost var before, s := sections, sections[unreleased];
      if |releasedKeys| == 0 {
        assert releasedKeys == {};
        NothingToDrop(s.subs);
        return 0;
      }
      dropped := DropFromSection(unreleased, releasedKeys);
      DroppedSize(HasKey(releasedKeys), before, unreleased);
    }

    method DropFromSection(unreleased: nat, releasedKeys: set<ItemKey>) returns (dropped: nat)
      requires unreleased < |sections| && NumberedSection(sections[unreleased])
      modifies `sections
      ensures var p := HasKey(releasedKeys); var s := old(sections[unreleased]);
        sections == old(sections)[unreleased := Without(p, s)] && dropped == |TakenSubs(p, s.subs)|
    {
      hide TakenSubs, Rest, Increasing, TakenKeys, RestSubs;
      ghost var before, s, p := sections, sections[unreleased], HasKey(releasedKeys);
      dropped := 0;
      NoneTaken(p);
      RestNone(p, s.subs);
      for j := 0 to |sections[unreleased].subs|
        invariant sections == before[unreleased := s.(subs := RestSubs(p, s.subs[..j]) + s.subs[j..])]
        invariant dropped == |TakenSubs(p, s.subs[..j])|
      {
        var b := sections[unreleased].subs[j];
        RestEnd(p, s.subs, j);
        assert b == s.subs[j] && b in s.subs && s.subs[..j + 1] == s.subs[..j] + [b];
        TakenSubsEnd(p, s.subs[..j], b);
        var duplicates, rest := TakeItems(b.lines, HasKey(releasedKeys));
        TakenAre(p, b.lines);
        var subs := sections[unreleased].subs[j := Sub(b.title, rest)];
        sections := sections[unreleased := sections[unreleased].(subs := subs)];
        dropped := dropped + |duplicates|;
      }
      RestAll(p, s.subs);
    }

    method GetOrCreateUnreleasedSection() returns (unreleased: nat)
      modifies `sections
      ensures sections == if Find(old(sections)) >= 0 then old(sections) else [NEW_UNRELEASED] + old(sections)
      ensures unreleased == if Find(old(sections)) >= 0 then Find(old(sections)) else 0
    {
      var existing := Find(sections);
      if existing >= 0 { return existing; }
      sections := [NEW_UNRELEASED] + sections;
      return 0;
    }

    /** Move the picked items of one section. A new Unreleased section pushes this one back. */
    method PromoteSection(at: nat, found: int, lines: set<nat>) returns (unreleased: int, promoted: nat)
      requires at < |sections| && sections[at].title != UNRELEASED && NumberedSection(sections[at])
      requires found == Find(sections)
      modifies `sections
      ensures var p := StartsAt(lines); var s := old(sections[at]); var moved := TakenSubs(p, s.subs);
        && sections == Give(old(sections)[at := Without(p, s)], Find(old(sections)), moved)
        && unreleased == Find(sections) && promoted == |moved|
    {
      hide Give, TakenSubs, PartDone, PartShift, Increasing, Rest, TakenKeys, AddAll, Find, RestSubs, Keys, Picked,
           Chunks, Moves, Without;
      ghost var ss, p, s := sections, StartsAt(lines), sections[at];
      var cur := at;
      unreleased, promoted := found, 0;
      PartStart(p, ss, at);
      for j := 0 to |sections[at].subs|
        invariant sections == PartDone(p, ss, at, j) && cur == at + PartShift(p, ss, at, j)
        invariant unreleased == Find(sections) && promoted == |TakenSubs(p, s.subs[..j])|
      {
        PartSub(p, ss, at, j);
        PartFind(p, ss, at, j);
        PartFind(p, ss, at, j + 1);
        var b := sections[cur].subs[j];
        assert b in s.subs;
        var items, rest := TakeItems(b.lines, StartsAt(lines));
        assert items == TakenKeys(p, b.lines) by { TakenAre(p, b.lines); }
        if |items| == 0 {
          PartSame(p, ss, at, j);
          continue;
        }
        PartGive(p, ss, at, j);
        ghost var now := sections;
        sections := sections[cur := sections[cur].(subs := sections[cur].subs[j := Sub(b.title, rest)])];
        SameSectionTitles(now, sections);
        if unreleased < 0 {
          unreleased := GetOrCreateUnreleasedSection();
          cur := cur + 1;
        }
        PartUnreleased(p, ss, at, j);
        var target := MoveItems(sections[unreleased], b.title, items);
        sections := sections[unreleased := target];
        promoted := promoted + |items|;
      }
      PartEnd(p, ss, at);
    }

    /** Walk over the sections, of which there may become one more on the way. */
    method Promote(lines: set<nat>) returns (promoted: nat)
      requires ReleasedNumbered(sections)
      modifies `sections
      ensures sections == Promoted(StartsAt(lines), old(sections))
      ensures promoted == |Taken(StartsAt(lines), old(sections))|
    {
      hide Promoted, Midway, Shift, Taken, TakenSubs, Give, RestSubs, NumberedSection, Left, Without, Find;
      ghost var ss, p, n := sections, StartsAt(lines), 0;
      var unreleased := Find(sections);
      var at := 0;
      promoted := 0;
      MidwayStart(p, ss);
      while at < |sections|
        invariant n <= |ss| && sections == Midway(p, ss, n) && Shift(p, ss, n) <= 1
        invariant unreleased == Find(sections) && promoted == |Taken(p, ss[..n])|
        invariant at == n + Shift(p, ss, n)
               || (at == n && Shift(p, ss, n) == 1 && n >= 1 && ss[n - 1].title != UNRELEASED)
        decreases |sections| - at + if unreleased < 0 then 1 else 0
      {
        MidwayFind(p, ss, n);
        ghost var again := at != n + Shift(p, ss, n);
        ghost var here := if again then n - 1 else n;
        MidwayTitle(p, ss, n, here);
        if sections[at].title == UNRELEASED {
          MidwaySkip(p, ss, n);
          n := n + 1;
          at := at + 1;
          continue;
        }
        assert ss[here] in ss;
        MidwayNumbered(p, ss, n, here);
        if again {
          MidwayAgain(p, ss, n);
        } else {
          MidwayStep(p, ss, n);
          MidwayFind(p, ss, n + 1);
          ShiftGrows(p, ss, n);
        }
        var count;
        unreleased, count := PromoteSection(at, unreleased, lines);
        promoted := promoted + count;
        at := at + 1;
        if !again { n := n + 1; }
      }
      MidwayFind(p, ss, n);
      MidwayEnd(p, ss);
    }

    /** The counters say how many headings went because they were blank, and how many because they were repeated. */
    method Normalize() returns (merged: nat, removed: nat)
      modifies `sections
      ensures sections == NormalizedAll(old(sections))
      ensures removed == BlankHeadings(old(sections))
      ensures merged == Headings(old(sections)) - removed - Headings(sections)
    {
      hide Normalized, BlankSubs;
      merged, removed := 0, 0;
      ghost var ss := sections;
      assert ss[..0] == [];
      for i := 0 to |sections|
        invariant |sections| == |ss| && sections[i..] == ss[i..]
        invariant forall j :: 0 <= j < i ==> sections[j] == Normalized(ss[j])
        invariant removed == BlankHeadings(ss[..i]) && merged + removed + Headings(sections[..i]) == Headings(ss[..i])
      {
        assert sections[i] == sections[i..][0] == ss[i..][0];
        var section, m, r := NormalizeSection(sections[i]);
        assert sections[i + 1..] == sections[i..][1..] == ss[i + 1..];
        assert ss[..i + 1][..i] == ss[..i] && sections[i := section][..i + 1][..i] == sections[..i];
        sections := sections[i := section];
        merged, removed := merged + m, removed + r;
      }
      assert ss[..|ss|] == ss && sections[..|ss|] == sections;
    }

    method SortReleaseSections(version: string -> Version)
      modifies `sections
      ensures sections == SortedSections(old(sections), version)
    {
      sections := Select(sections, true) + StableSort(Select(sections, false), TitleAfter(version));
    }
  }

  method SectionItemKeys(section: Section) returns (keys: set<ItemKey>)
    ensures forall k :: k in keys <==> k in SubsBag(section.subs)
  {
    keys := {};
    ghost var subs := section.subs;
    for i := 0 to |section.subs|
      invariant forall k :: k in keys <==> k in SubsBag(subs[..i])
    {
      hide SubsBag, LinesBag;
      var more := LinesItemKeys(section.subs[i].lines);
      assert subs[..i + 1] == subs[..i] + [subs[i]];
      SubsBagAppend(subs[..i], [subs[i]]);
      SubsBagOne(subs[i]);
      keys := keys + more;
    }
    assert subs[..|subs|] == subs;
  }

  method LinesItemKeys(ls: seq<Line>) returns (keys: set<ItemKey>)
    ensures forall k :: k in keys <==> k in LinesBag(ls)
  {
    hide Chunks, Key;
    var items := ParseItems(ls);
    ghost var found := ItemKeys(ls);
    keys := {};
    for j := 0 to |items|
      invariant forall k :: k in keys <==> k in found[..j]
    {
      assert found[..j + 1] == found[..j] + [items[j].lines];
      keys := keys + {items[j].lines};
    }
    assert found[..|items|] == found;
  }

  /** Once an item was given, the sections stay moved. */
  lemma {:induction false} ShiftGrows(p: Pick, ss: seq<Section>, n: nat)
    requires n < |ss|
    ensures Shift(p, ss, n) <= Shift(p, ss, n + 1) <= 1
    ensures Shift(p, ss, n + 1) > 0 ==> Find(ss) < 0
  {
    hide TakenSubs, Taken;
    assert ss[..n + 1] == ss[..n] + [ss[n]];
    TakenEnd(p, ss[..n], ss[n]);
  }

  lemma {:induction false} NoneTaken(p: Pick)
    ensures TakenSubs(p, []) == []
  {
  }

  lemma {:induction false} TakenAre(p: Pick, ls: seq<Line>)
    ensures TakenKeys(p, ls) == Keys(Picked(p, Chunks(AtItem, ls)))
  {
  }

  /** In front of the place that gets the items there is an Unreleased section by now. */
  lemma {:induction false} PartUnreleased(p: Pick, ss: seq<Section>, at: nat, j: nat)
    requires at < |ss| && j <= |ss[at].subs|
    ensures PartShift(p, ss, at, j) == 1 ==> Find(ss) < 0 && TakenSubs(p, ss[at].subs[..j]) != []
    ensures PartShift(p, ss, at, j) == 0 ==> Find(ss) >= 0 || TakenSubs(p, ss[at].subs[..j]) == []
    ensures PartShift(p, ss, at, j) in {0, 1}
  {
  }
}
