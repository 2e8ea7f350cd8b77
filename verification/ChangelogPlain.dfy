/**
 No pass of the fixer puts a heading among the lines of a subsection.
 */
module ChangelogPlain {
  import opened ChangelogText
  import opened ChangelogItems
  import opened ChangelogMerge
  import opened ChangelogDocument
  import opened ChangelogSections
  import opened ChangelogSort
  import opened StableSorting
  import opened ChangelogNormal
  import opened ChangelogPromotion
  import opened ChangelogFix
  import opened ChangelogFixer
  import opened ChangelogRoundTrip

  // ----- every line stays where the parser could have put it -----

  predicate Plain(ts: seq<Text>) { forall t :: t in ts ==> !t.Release? && !t.Heading? }

  predicate PlainSub(b: Sub) { Plain(Texts(b.lines)) }

  predicate PlainSubs(subs: seq<Sub>) { forall i :: 0 <= i < |subs| ==> PlainSub(subs[i]) }

  lemma {:induction false} PlainTrim(ts: seq<Text>)
    requires Plain(ts)
    ensures Plain(Trim(ts))
  {
    hide Trim;
    var front, back := TrimCuts(ts);
    assert forall t :: t in Trim(ts) ==> t in ts;
  }

  lemma {:induction false} PlainWithin(a: seq<Line>, b: seq<Line>)
    requires Plain(Texts(b)) && forall l :: l in a ==> l in b
    ensures Plain(Texts(a))
  {
    forall t | t in Texts(a) ensures !t.Release? && !t.Heading? {
      var i :| 0 <= i < |a| && Texts(a)[i] == t;
      assert a[i] in a && a[i] in b;
      var j :| 0 <= j < |b| && b[j] == a[i];
      assert Texts(b)[j] == t;
    }
  }

  lemma {:induction false} PlainKeys(ls: seq<Line>)
    requires Plain(Texts(ls))
    ensures forall k :: k in ItemKeys(ls) ==> Plain(k)
  {
    hide Chunks, Trim, Plain;
    var cs := Chunks(AtItem, ls);
    forall k | k in ItemKeys(ls) ensures Plain(k) {
      var i :| 0 <= i < |cs| && Keys(cs)[i] == k;
      ChunkWithin(ls, cs[i]);
      PlainWithin(cs[i], ls);
      PlainTrim(Texts(cs[i]));
    }
  }

  lemma {:induction false} ChunkWithin(ls: seq<Line>, c: seq<Line>)
    requires c in Chunks(AtItem, ls)
    ensures forall l :: l in c ==> l in ls
  {
    hide Chunks;
    ChunksRejoin(AtItem, ls);
    InFlatten(Chunks(AtItem, ls), c);
  }

  lemma {:induction false} FlattenWithin(cs: seq<seq<Line>>, l: Line)
    requires l in Flatten(cs)
    ensures exists c :: c in cs && l in c
  {
    if l in cs[0] {
    } else {
      FlattenWithin(cs[1..], l);
    }
  }

  lemma {:induction false} PlainRest(p: Pick, ls: seq<Line>)
    requires Plain(Texts(ls))
    ensures Plain(Texts(Rest(p, ls)))
    ensures forall k :: k in TakenKeys(p, ls) ==> Plain(k)
  {
    hide Chunks, Lead, Plain, Key, Picks;
    var cs := Chunks(AtItem, ls);
    forall l | l in Rest(p, ls) ensures l in ls {
      if l in Flatten(Kept(p, cs)) {
        FlattenWithin(Kept(p, cs), l);
        var c :| c in Kept(p, cs) && l in c;
        ChunkWithin(ls, c);
      }
    }
    PlainWithin(Rest(p, ls), ls);
    PlainKeys(ls);
    var taken := Picked(p, cs);
    forall k | k in TakenKeys(p, ls) ensures Plain(k) {
      var i :| 0 <= i < |taken| && Keys(taken)[i] == k;
      assert taken[i] in cs;
      var j :| 0 <= j < |cs| && cs[j] == taken[i];
      assert ItemKeys(ls)[j] == k;
    }
  }

  lemma {:induction false} PlainAppended(ls: seq<Line>, source: seq<Text>)
    requires Plain(Texts(ls)) && Plain(source)
    ensures Plain(Texts(Appended(ls, source)))
  {
    hide Trim;
    PlainTrim(source);
    PlainTrim(Texts(ls));
    var more, existing := Trim(source), Trim(Texts(ls));
    if more != [] && existing != [] {
      assert Texts(Appended(ls, source)) == existing + Separator(existing, more) + more;
    } else if more != [] {
      assert Texts(Appended(ls, source)) == more;
    }
  }

  lemma {:induction false} PlainFlat(keys: seq<ItemKey>)
    requires forall k :: k in keys ==> Plain(k)
    ensures Plain(Flatten(keys))
  {
    if keys != [] {
      assert keys[0] in keys;
      PlainFlat(keys[1..]);
    }
  }

  lemma {:induction false} PlainCompacted(ts: seq<Text>)
    requires Plain(ts)
    ensures Plain(Compacted(ts))
  {
    hide Trim, Plain, ItemKeys, Flatten, NonBlank;
    PlainTrim(ts);
    assert Texts(Synthetic(Trim(ts))) == Trim(ts);
    PlainKeys(Synthetic(Trim(ts)));
    PlainFlat(ItemKeys(Synthetic(Trim(ts))));
    PlainNone();
  }

  lemma {:induction false} PlainNone()
    ensures Plain([]) && PlainSubs([]) && Texts([]) == []
  {
  }

  lemma {:induction false} PlainAdd(subs: seq<Sub>, m: Moved)
    requires PlainSubs(subs) && Plain(m.key)
    ensures PlainSubs(AddItem(subs, m))
  {
    hide Plain, Appended, HasItem;
    PlainNone();
    var with := WithSub(subs, m.title);
    PlainAppended(with[LastTitled(with, m.title)].lines, m.key);
  }

  lemma {:induction false} PlainAddAll(subs: seq<Sub>, moved: seq<Moved>)
    requires PlainSubs(subs) && forall m :: m in moved ==> Plain(m.key)
    ensures PlainSubs(AddAll(subs, moved))
    decreases |moved|
  {
    hide PlainSubs, Plain, AddItem;
    if moved != [] {
      assert moved[0] in moved;
      PlainAdd(subs, moved[0]);
      PlainAddAll(AddItem(subs, moved[0]), moved[1..]);
    }
  }

  lemma {:induction false} PlainTaken(p: Pick, subs: seq<Sub>)
    requires PlainSubs(subs)
    ensures PlainSubs(RestSubs(p, subs)) && forall m :: m in TakenSubs(p, subs) ==> Plain(m.key)
  {
    hide Plain, Rest, TakenKeys;
    if subs != [] {
      var b := subs[0];
      assert PlainSub(b);
      PlainTaken(p, subs[1..]);
      PlainRest(p, b.lines);
      var keys := TakenKeys(p, b.lines);
      forall m | m in Moves(b.title, keys) ensures Plain(m.key) {
        var i :| 0 <= i < |keys| && Moves(b.title, keys)[i] == m;
        assert keys[i] in keys;
      }
      forall i | 0 <= i < |subs| ensures PlainSub(RestSubs(p, subs)[i]) {
        if i > 0 { assert RestSubs(p, subs)[i] == RestSubs(p, subs[1..])[i - 1]; }
      }
    }
  }

  predicate PlainSections(ss: seq<Section>) {
    forall i :: 0 <= i < |ss| ==> Plain(Texts(ss[i].lead)) && PlainSubs(ss[i].subs)
  }

  lemma {:induction false} PlainTakenAll(p: Pick, ss: seq<Section>)
    requires PlainSections(ss)
    ensures PlainSections(Lefts(p, ss)) && forall m :: m in Taken(p, ss) ==> Plain(m.key)
  {
    hide Plain, PlainSubs, RestSubs, TakenSubs;
    if ss != [] {
      PlainTakenAll(p, ss[1..]);
      PlainTaken(p, ss[0].subs);
      forall i | 0 <= i < |ss| ensures Plain(Texts(Lefts(p, ss)[i].lead)) && PlainSubs(Lefts(p, ss)[i].subs) {
        if i > 0 { assert Lefts(p, ss)[i] == Lefts(p, ss[1..])[i - 1]; }
      }
    }
  }

  lemma {:induction false} PlainPromoted(p: Pick, ss: seq<Section>)
    requires PlainSections(ss)
    ensures PlainSections(Promoted(p, ss))
  {
    hide Plain, PlainSubs, RestSubs, Taken, AddAll;
    PlainTakenAll(p, ss);
    PlainNone();
    var u := Find(ss);
    PlainAddAll(if u >= 0 then Lefts(p, ss)[u].subs else [], Taken(p, ss));
  }

  lemma {:induction false} PlainDropped(ss: seq<Section>, history: set<ItemKey>)
    requires PlainSections(ss)
    ensures PlainSections(Dropped(ss, history))
  {
    hide Plain, PlainSubs, RestSubs, Bag;
    var u := Find(ss);
    if u >= 0 {
      PlainTaken(HasKey((set k | k in Bag(Select(ss, false))) + history), ss[u].subs);
    }
  }

  lemma {:induction false} PlainMerged(subs: seq<Sub>)
    requires PlainSubs(subs)
    ensures PlainSubs(MergeAll(subs))
  {
    hide Plain, Compacted, Appended, Trim;
    if subs != [] {
      var front, b := subs[..|subs| - 1], subs[|subs| - 1];
      PlainMerged(front);
      assert PlainSub(b);
      PlainTrim(Texts(b.lines));
      PlainCompacted(Trim(Texts(b.lines)));
      var merged, lines := MergeAll(front), Compacted(Trim(Texts(b.lines)));
      var i := LastTitled(merged, b.title);
      if i >= 0 { PlainAppended(merged[i].lines, lines); }
      assert Texts(Synthetic(lines)) == lines;
    }
  }

  lemma {:induction false} PlainNormalized(s: Section)
    requires PlainSubs(s.subs) && Plain(Texts(s.lead))
    ensures PlainSubs(Normalized(s).subs) && Plain(Texts(Normalized(s).lead))
  {
    hide Plain, MergeAll, Trim;
    PlainMerged(s.subs);
    PlainTrim(Texts(s.lead));
    assert Texts(Synthetic(Trim(Texts(s.lead)))) == Trim(Texts(s.lead));
    var subs, sorted := MergeAll(s.subs), StableSort(MergeAll(s.subs), SubAfter);
    SortKeeps(subs, SubAfter);
    forall i | 0 <= i < |sorted| ensures PlainSub(sorted[i]) {
      assert sorted[i] in multiset(sorted);
      var j :| 0 <= j < |subs| && subs[j] == sorted[i];
    }
  }

  lemma {:induction false} SelectWithin(ss: seq<Section>, unreleased: bool)
    ensures forall s :: s in Select(ss, unreleased) ==> s in ss
  {
    if ss != [] {
      SelectWithin(ss[1..], unreleased);
    }
  }

  lemma {:induction false} SortedWithin(ss: seq<Section>, version: string -> Version)
    ensures forall s :: s in SortedSections(ss, version) ==> s in ss
  {
    var released := Select(ss, false);
    SelectWithin(ss, true);
    SelectWithin(ss, false);
    SortKeeps(released, TitleAfter(version));
    forall s | s in StableSort(released, TitleAfter(version)) ensures s in ss {
      assert s in multiset(released);
    }
  }

  lemma {:induction false} FixedFits(doc: Doc, history: set<ItemKey>, lines: set<nat>, version: string -> Version)
    requires Fits(doc)
    ensures Fits(Doc(doc.prefix, Fixed(doc.sections, history, lines, version)))
  {
    hide Plain, PlainSubs, Dropped, Promoted, SortedSections, Normalized;
    var ss := doc.sections;
    forall i | 0 <= i < |ss| ensures Plain(Texts(ss[i].lead)) && PlainSubs(ss[i].subs) {
      assert ss[i] in ss;
      PlainFits(ss[i]);
    }
    var dropped := Dropped(ss, history);
    PlainDropped(ss, history);
    var promoted := Promoted(StartsAt(lines), dropped);
    PlainPromoted(StartsAt(lines), dropped);
    var normal := NormalizedAll(promoted);
    SortedWithin(normal, version);
    forall s | s in SortedSections(normal, version) ensures SectionFits(s) {
      var i :| 0 <= i < |normal| && normal[i] == s;
      PlainNormalized(promoted[i]);
      PlainFits(s);
    }
  }

  lemma {:induction false} PlainLines(ls: seq<Line>)
    ensures Plain(Texts(ls)) <==> Free(AtRelease, ls) && Free(AtHeading, ls)
  {
    if Plain(Texts(ls)) {
      forall l | l in ls ensures !Is(AtRelease, l.text) && !Is(AtHeading, l.text) {
        var i :| 0 <= i < |ls| && ls[i] == l;
        assert Texts(ls)[i] in Texts(ls);
      }
    }
    if Free(AtRelease, ls) && Free(AtHeading, ls) {
      forall t | t in Texts(ls) ensures !t.Release? && !t.Heading? {
        var i :| 0 <= i < |ls| && Texts(ls)[i] == t;
        assert ls[i] in ls;
      }
    }
  }

  lemma {:induction false} PlainFits(s: Section)
    ensures SectionFits(s) <==> Plain(Texts(s.lead)) && PlainSubs(s.subs)
  {
    hide Plain, Free;
    PlainLines(s.lead);
    forall b: Sub ensures SubFits(b) <==> PlainSub(b) {
      PlainLines(b.lines);
    }
  }
}
