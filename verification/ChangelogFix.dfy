/**
 The fixer itself: a document whose sections are reassigned step by step.
 */
module ChangelogFix {
  import opened ChangelogText
  import opened ChangelogItems
  import opened ChangelogMerge
  import opened ChangelogDocument
  import opened ChangelogSections
  import opened ChangelogSort
  import opened ChangelogNormal
  import opened ChangelogPromotion

  // ----- line numbers -----

  predicate NumberedSection(s: Section) { forall b :: b in s.subs ==> Increasing(b.lines) }

  predicate Numbered(ss: seq<Section>) { forall s :: s in ss ==> NumberedSection(s) }

  lemma {:induction false} OutsideIncreasing(items: seq<ParsedItem>, ls: seq<Line>)
    requires Increasing(ls)
    ensures Increasing(Outside(items, ls)) && forall l :: l in Outside(items, ls) ==> l in ls
  {
    hide InRanges;
    if ls != [] {
      assert Increasing(ls[1..]) by {
        assert forall i :: 0 <= i < |ls| - 1 ==> ls[1..][i] == ls[i + 1];
      }
      OutsideIncreasing(items, ls[1..]);
      assert forall l :: l in ls[1..] ==> l in ls && ls[0].at < l.at;
    }
  }

  lemma {:induction false} RestIncreasing(p: Pick, ls: seq<Line>)
    requires Increasing(ls)
    ensures Increasing(Rest(p, ls))
  {
    hide Outside, Rest, Increasing, Chunks;
    OutsideIsRest(p, ls);
    OutsideIncreasing(ParsedItems(Picked(p, Chunks(AtItem, ls))), ls);
  }

  lemma {:induction false} WithoutNumbered(p: Pick, s: Section)
    requires NumberedSection(s)
    ensures NumberedSection(Without(p, s))
  {
    hide Increasing, Rest;
    forall b | b in RestSubs(p, s.subs) ensures Increasing(b.lines) {
      var i :| 0 <= i < |s.subs| && RestSubs(p, s.subs)[i] == b;
      assert s.subs[i] in s.subs;
      RestIncreasing(p, s.subs[i].lines);
    }
  }

  /** Taking out what is no longer there changes nothing. */
  lemma {:induction false} RestTwice(p: Pick, ls: seq<Line>)
    ensures Rest(p, Rest(p, ls)) == Rest(p, ls) && TakenKeys(p, Rest(p, ls)) == []
  {
    hide Chunks, Lead, Picks;
    RestItems(p, ls);
    var kept := Kept(p, Chunks(AtItem, ls));
    NonePicked(p, kept);
    KeptOrPicked(p, kept);
  }

  lemma {:induction false} NonePicked(p: Pick, cs: seq<seq<Line>>)
    requires AreChunks(AtItem, cs) && forall c :: c in cs ==> !Picks(p, c)
    ensures Picked(p, cs) == []
  {
    hide Picks;
    if cs != [] {
      assert cs[0] in cs;
      NonePicked(p, cs[1..]);
    }
  }

  lemma {:induction false} TakenTwice(p: Pick, subs: seq<Sub>)
    ensures RestSubs(p, RestSubs(p, subs)) == RestSubs(p, subs) && TakenSubs(p, RestSubs(p, subs)) == []
  {
    hide Rest, TakenKeys;
    if subs != [] {
      TakenTwice(p, subs[1..]);
      RestTwice(p, subs[0].lines);
      assert RestSubs(p, subs)[1..] == RestSubs(p, subs[1..]);
      assert RestSubs(p, RestSubs(p, subs))
        == [RestSubs(p, RestSubs(p, subs))[0]] + RestSubs(p, RestSubs(p, subs[1..]));
    }
  }

  // ----- small steps -----

  lemma {:induction false} AddAllAppend(subs: seq<Sub>, a: seq<Moved>, b: seq<Moved>)
    ensures AddAll(subs, a + b) == AddAll(AddAll(subs, a), b)
    decreases |a|
  {
    hide AddItem;
    if a == [] {
      assert a + b == b;
    } else {
      assert (a + b)[1..] == a[1..] + b;
      AddAllAppend(AddItem(subs, a[0]), a[1..], b);
    }
  }

  lemma {:induction false} TakenSubsEnd(p: Pick, subs: seq<Sub>, b: Sub)
    ensures TakenSubs(p, subs + [b]) == TakenSubs(p, subs) + Moves(b.title, TakenKeys(p, b.lines))
  {
    hide TakenKeys;
    if subs == [] {
      assert subs + [b] == [b] && [b][1..] == [] && TakenSubs(p, []) == [];
    } else {
      assert (subs + [b])[1..] == subs[1..] + [b];
      TakenSubsEnd(p, subs[1..], b);
    }
  }

  lemma {:induction false} TakenEnd(p: Pick, ss: seq<Section>, s: Section)
    ensures Taken(p, ss + [s]) == Taken(p, ss) + (if s.title == UNRELEASED then [] else TakenSubs(p, s.subs))
  {
    hide TakenSubs;
    if ss == [] {
      assert ss + [s] == [s] && [s][1..] == [] && Taken(p, []) == [];
    } else {
      assert (ss + [s])[1..] == ss[1..] + [s];
      TakenEnd(p, ss[1..], s);
    }
  }

  method SubsectionHasItem(b: Sub, item: seq<Text>) returns (has: bool)
    ensures has == HasItem(b.lines, item)
  {
    hide Chunks, Trim;
    var wanted := TrimBlankLines(item);
    if |wanted| == 0 { return true; }
    var items := ParseItems(b.lines);
    ghost var keys := ItemKeys(b.lines);
    for i := 0 to |items|
      invariant wanted !in keys[..i]
    {
      assert items[i].lines == keys[i];
      var key := TrimBlankLines(items[i].lines);
      TrimTwice(Texts(Chunks(AtItem, b.lines)[i]));
      if key == wanted { return true; }
      assert keys[..i + 1] == keys[..i] + [keys[i]];
    }
    assert keys[..|items|] == keys;
    return false;
  }

  /** Add the items that are not there yet to the last subsection with the title, made if need be. */
  method MoveItems(section: Section, title: string, items: seq<ItemKey>) returns (r: Section)
    requires items != []
    ensures r == Receive(section, Moves(title, items))
  {
    hide AddTo;
    var subs := WithSub(section.subs, title);
    var target := LastTitled(subs, title);
    ghost var whole := Moves(title, items);
    for i := 0 to |items|
      invariant LastTitled(subs, title) == target && 0 <= target < |subs|
      invariant AddAll(subs, whole[i..]) == AddAll(section.subs, whole)
    {
      ghost var before := subs;
      var has := SubsectionHasItem(subs[target], items[i]);
      if !has {
        var lines := AppendSubsectionLines(subs[target].lines, items[i]);
        subs := subs[target := Sub(title, lines)];
      }
      Unfold(before, subs, target, whole[i], has);
      assert whole[i..][1..] == whole[i + 1..];
      SameTitles(before, subs, title);
    }
    assert whole[|items|..] == [];
    r := section.(subs := subs);
  }

  lemma {:induction false} SameTitles(a: seq<Sub>, b: seq<Sub>, title: string)
    requires |a| == |b| && forall i :: 0 <= i < |a| ==> a[i].title == b[i].title
    ensures LastTitled(a, title) == LastTitled(b, title)
  {
  }

  lemma {:induction false} Unfold(before: seq<Sub>, now: seq<Sub>, i: nat, m: Moved, has: bool)
    requires i < |before| && i == LastTitled(before, m.title) && has == HasItem(before[i].lines, m.key)
    requires now == if has then before else before[i := Sub(m.title, Appended(before[i].lines, m.key))]
    ensures now == AddItem(before, m)
  {
    hide HasItem, Appended;
    assert before[i] == Sub(m.title, before[i].lines);
  }

  // ----- giving -----

  /** Changing a section and then giving more is giving all to the changed sections. */
  lemma {:induction false} GiveMore(ss: seq<Section>, at: nat, s: Section, u: int, moved: seq<Moved>, more: seq<Moved>)
    requires at < |ss| && -1 <= u < |ss| && u != at && more != []
    ensures var first := u < 0 && moved == []; var cur := at + if u < 0 && moved != [] then 1 else 0;
      var changed := Give(ss, u, moved)[cur := s]; var v := if u >= 0 then u else 0;
      Give(ss[at := s], u, moved + more)
        == if first then [Receive(NEW_UNRELEASED, more)] + changed else changed[v := Receive(changed[v], more)]
  {
    hide AddAll;
    NoneAdded([]);
    if moved == [] {
      assert moved + more == more;
    } else {
      AddAllAppend(if u >= 0 then ss[u].subs else [], moved, more);
    }
  }

  lemma {:induction false} NoneAdded(subs: seq<Sub>)
    ensures AddAll(subs, []) == subs
  {
  }

  /** Where the Unreleased section is after giving. */
  lemma {:induction false} FindGiven(ss: seq<Section>, u: int, moved: seq<Moved>)
    requires u == Find(ss)
    ensures Find(Give(ss, u, moved)) == if moved == [] then u else if u >= 0 then u else 0
  {
    hide AddAll, Find;
    if moved != [] && u >= 0 {
      SameSectionTitles(ss, ss[u := Receive(ss[u], moved)]);
    } else if moved != [] {
      assert Give(ss, u, moved)[0].title == UNRELEASED;
    }
  }

  lemma {:induction false} SameSectionTitles(a: seq<Section>, b: seq<Section>)
    requires |a| == |b| && forall i :: 0 <= i < |a| ==> a[i].title == b[i].title
    ensures Find(a) == Find(b)
  {
    var i, j := Find(a), Find(b);
    assert i >= 0 ==> b[i].title == UNRELEASED;
  }
}
