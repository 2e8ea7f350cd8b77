/**
 Where items are after duplicates were dropped and new ones were moved to Unreleased.
 */
module ChangelogPromotion {
  import opened ChangelogText
  import opened ChangelogItems
  import opened ChangelogMerge
  import opened ChangelogDocument
  import opened ChangelogSections

  // ----- taking out -----

  lemma {:induction false} RestBag(p: Pick, ls: seq<Line>)
    ensures LinesBag(ls) == LinesBag(Rest(p, ls)) + multiset(TakenKeys(p, ls))
    ensures HasItems(Rest(p, ls)) ==> HasItems(ls)
    ensures StartsClean(Rest(p, ls)) <==> StartsClean(ls)
  {
    hide Chunks, Lead, Kept, Picked, Rest, Keys;
    RestItems(p, ls);
    KeptOrPicked(p, Chunks(AtItem, ls));
    if !HasItems(ls) { NoPicks(p); }
  }

  lemma {:induction false} TakenAreKeys(p: Pick, ls: seq<Line>)
    ensures forall k :: k in TakenKeys(p, ls) ==> IsKey(k)
  {
    hide Chunks, Picked, Key, IsKey;
    var cs := Picked(p, Chunks(AtItem, ls));
    forall k | k in Keys(cs) ensures IsKey(k) {
      var i :| 0 <= i < |cs| && Keys(cs)[i] == k;
      assert cs[i] in cs;
      KeyOfChunk(cs[i]);
    }
  }

  lemma {:induction false} TakenSubsAreKeys(p: Pick, subs: seq<Sub>)
    ensures forall m :: m in TakenSubs(p, subs) ==> IsKey(m.key)
  {
    hide TakenKeys, IsKey;
    if subs != [] {
      var keys := TakenKeys(p, subs[0].lines);
      TakenAreKeys(p, subs[0].lines);
      TakenSubsAreKeys(p, subs[1..]);
      forall m | m in Moves(subs[0].title, keys) ensures IsKey(m.key) {
        var i :| 0 <= i < |keys| && Moves(subs[0].title, keys)[i] == m;
        assert keys[i] in keys;
      }
    }
  }

  lemma {:induction false} SubsRestBag(p: Pick, subs: seq<Sub>)
    ensures SubsBag(subs) == SubsBag(RestSubs(p, subs)) + MovedBag(TakenSubs(p, subs))
  {
    hide LinesBag, Rest, TakenKeys, MovedBag;
    if subs == [] {
      NoSubsBag();
      NoneMoved();
    } else {
      var b, rest := subs[0], subs[1..];
      var keys := TakenKeys(p, b.lines);
      SubsRestBag(p, rest);
      RestBag(p, b.lines);
      assert RestSubs(p, subs)[1..] == RestSubs(p, rest);
      MovedBagAppend(Moves(b.title, keys), TakenSubs(p, rest));
      MovesBag(b.title, keys);
    }
  }

  lemma {:induction false} NoneMoved()
    ensures MovedBag([]) == multiset{}
  {
  }

  lemma {:induction false} LeftsBag(p: Pick, ss: seq<Section>)
    ensures Bag(ss) == Bag(Lefts(p, ss)) + MovedBag(Taken(p, ss))
    ensures forall m :: m in Taken(p, ss) ==> IsKey(m.key)
  {
    hide SubsBag, TakenSubs, RestSubs, IsKey, MovedBag, Bag;
    NoneMoved();
    if ss == [] {
      assert Lefts(p, ss) == ss;
    } else {
      var s, rest := ss[0], ss[1..];
      LeftsBag(p, rest);
      SubsRestBag(p, s.subs);
      TakenSubsAreKeys(p, s.subs);
      assert Lefts(p, ss) == [Left(p, s)] + Lefts(p, rest) && ss == [s] + rest;
      BagAppend([s], rest);
      BagOne(s);
      BagAppend([Left(p, s)], Lefts(p, rest));
      BagOne(Left(p, s));
      var taken := if s.title == UNRELEASED then [] else TakenSubs(p, s.subs);
      MovedBagAppend(taken, Taken(p, rest));
    }
  }

  lemma {:induction false} RestKeepsProse(p: Pick, subs: seq<Sub>)
    requires NoProseMerge(subs)
    ensures NoProseMerge(RestSubs(p, subs))
  {
    hide HasItems, StartsClean, Rest;
    forall i | 0 <= i < |subs|
      ensures HasItems(RestSubs(p, subs)[i].lines) ==> HasItems(subs[i].lines)
      ensures StartsClean(RestSubs(p, subs)[i].lines) <==> StartsClean(subs[i].lines)
    {
      RestBag(p, subs[i].lines);
    }
  }

  // ----- putting in -----

  lemma {:induction false} OneKey(k: ItemKey)
    requires IsKey(k)
    ensures ItemKeys(Synthetic(k)) == [k] && HasItems(Synthetic(k)) && StartsClean(Synthetic(k)) && Trim(k) == k
  {
    hide Chunks, Lead, Key, Trim;
    KeyOfKey(k);
    KeysFlat([k]);
    assert [k][1..] == [] && Flatten([k]) == k + Flatten<Text>([]) == k;
  }

  lemma {:induction false} AddToBag(ls: seq<Line>, k: ItemKey)
    requires IsKey(k)
    ensures LinesBag(AddTo(ls, k)) == LinesBag(ls) + (if k in LinesBag(ls) then multiset{} else multiset{k})
    ensures StartsClean(ls) ==> StartsClean(AddTo(ls, k))
  {
    hide ItemKeys, HasItems, StartsClean, Trim, IsKey, Appended;
    OneKey(k);
    AppendedItems(ls, k);
    assert multiset(ItemKeys(ls) + [k]) == multiset(ItemKeys(ls)) + multiset{k};
    assert k != [] by { KeyNotEmpty(k); }
  }

  lemma {:induction false} KeyNotEmpty(k: ItemKey)
    requires IsKey(k)
    ensures k != []
  {
  }

  lemma {:induction false} WithSubBag(subs: seq<Sub>, title: string)
    ensures SubsBag(WithSub(subs, title)) == SubsBag(subs)
    ensures NoProseMerge(subs) ==> NoProseMerge(WithSub(subs, title))
  {
    hide SubsBag, HasItems, StartsClean, LinesBag;
    if LastTitled(subs, title) < 0 {
      var b := Sub(title, []);
      SubsBagAppend(subs, [b]);
      SubsBagOne(b);
      EmptyBag();
    }
  }

  lemma {:induction false} EmptyBag()
    ensures LinesBag([]) == multiset{}
  {
  }

  /** An added item is there, at most once more than before, and all others are untouched. */
  lemma {:induction false} AddItemBag(subs: seq<Sub>, m: Moved)
    requires IsKey(m.key)
    ensures m.key in SubsBag(AddItem(subs, m))
    ensures || SubsBag(AddItem(subs, m)) == SubsBag(subs)
            || SubsBag(AddItem(subs, m)) == SubsBag(subs) + multiset{m.key}
    ensures NoProseMerge(subs) ==> NoProseMerge(AddItem(subs, m))
  {
    hide SubsBag, HasItems, StartsClean, LinesBag, WithSub, IsKey, AddTo;
    var with := WithSub(subs, m.title);
    var i := LastTitled(with, m.title);
    WithSubBag(subs, m.title);
    AddToBag(with[i].lines, m.key);
    var b := Sub(m.title, AddTo(with[i].lines, m.key));
    SubsBagSplit(with, i, b);
    assert LinesBag(b.lines) + SubsBag(with[i + 1..])
        == LinesBag(with[i].lines) + SubsBag(with[i + 1..]) + (LinesBag(b.lines) - LinesBag(with[i].lines));
  }

  lemma {:induction false} AddAllBag(subs: seq<Sub>, moved: seq<Moved>)
    requires forall m :: m in moved ==> IsKey(m.key)
    ensures var now := SubsBag(AddAll(subs, moved));
      SubsBag(subs) <= now && forall k :: k in now <==> k in SubsBag(subs) || k in MovedBag(moved)
    ensures NoProseMerge(subs) ==> NoProseMerge(AddAll(subs, moved))
    decreases |moved|
  {
    hide SubsBag, AddItem, NoProseMerge, IsKey;
    if moved != [] {
      assert moved[0] in moved;
      AddItemBag(subs, moved[0]);
      AddAllBag(AddItem(subs, moved[0]), moved[1..]);
    }
  }

  // ----- promotion -----

  lemma {:induction false} LeftsSelect(p: Pick, ss: seq<Section>)
    ensures Select(Lefts(p, ss), false) == Lefts(p, Select(ss, false))
    ensures Select(Lefts(p, ss), true) == Select(ss, true)
  {
    hide RestSubs;
    if ss != [] {
      LeftsSelect(p, ss[1..]);
      assert Lefts(p, ss)[1..] == Lefts(p, ss[1..]);
    }
  }

  /** Receiving changes neither title nor place, so only the Unreleased section changes. */
  lemma {:induction false} GiveSelect(ss: seq<Section>, u: int, moved: seq<Moved>)
    requires -1 <= u < |ss| && (u >= 0 ==> ss[u].title == UNRELEASED)
    ensures Select(Give(ss, u, moved), false) == Select(ss, false)
  {
    hide AddAll, Select;
    if moved != [] {
      var s := if u >= 0 then Receive(ss[u], moved) else Receive(NEW_UNRELEASED, moved);
      if u >= 0 {
        WithoutSelect(ss, u, s);
      } else {
        OneSelected(s);
        SelectAppend([s], ss, false);
        assert [] + Select(ss, false) == Select(ss, false);
      }
    }
  }

  lemma {:induction false} OneSelected(s: Section)
    requires s.title == UNRELEASED
    ensures Select([s], false) == []
  {
    assert [s][1..] == [];
  }

  lemma {:induction false} GiveBag(ss: seq<Section>, u: int, moved: seq<Moved>)
    requires -1 <= u < |ss| && forall m :: m in moved ==> IsKey(m.key)
    ensures forall k :: k in Bag(Give(ss, u, moved)) <==> k in Bag(ss) || k in MovedBag(moved)
  {
    hide SubsBag, Bag, AddAll, IsKey;
    if moved == [] {
      assert MovedBag([]) == multiset{};
    } else if u >= 0 {
      AddAllBag(ss[u].subs, moved);
      BagSplit(ss, u, Receive(ss[u], moved));
    } else {
      AddAllBag([], moved);
      NoSubsBag();
      var s := Receive(NEW_UNRELEASED, moved);
      BagAppend([s], ss);
      BagOne(s);
    }
  }

  lemma {:induction false} NoSubsBag()
    ensures SubsBag([]) == multiset{}
  {
  }

  /** Moving items to Unreleased keeps the set of items; the released sections keep all that was not picked. */
  lemma {:induction false} PromotedItems(p: Pick, ss: seq<Section>)
    ensures forall k :: k in Bag(Promoted(p, ss)) <==> k in Bag(ss)
    ensures Select(Promoted(p, ss), false) == Lefts(p, Select(ss, false))
    ensures forall m :: m in Taken(p, ss) ==> m.key in Bag(Select(Promoted(p, ss), true))
  {
    hide Bag, Give, Lefts, Taken, Select, IsKey;
    var lefts, u, moved := Lefts(p, ss), Find(ss), Taken(p, ss);
    LeftsBag(p, ss);
    GiveBag(lefts, u, moved);
    LeftsSelect(p, ss);
    GiveSelect(lefts, u, moved);
    forall m | m in moved ensures m.key in Bag(Select(Promoted(p, ss), true)) {
      GivenUnreleased(lefts, u, moved, m);
    }
  }

  lemma {:induction false} GivenUnreleased(ss: seq<Section>, u: int, moved: seq<Moved>, m: Moved)
    requires -1 <= u < |ss| && (u >= 0 ==> ss[u].title == UNRELEASED)
    requires (forall m :: m in moved ==> IsKey(m.key)) && m in moved
    ensures m.key in Bag(Select(Give(ss, u, moved), true))
  {
    hide SubsBag, AddAll, IsKey;
    InMoved(moved, m.key);
    var at := if u >= 0 then u else 0;
    var s := Give(ss, u, moved)[at];
    AddAllBag(if u >= 0 then ss[u].subs else [], moved);
    SelectedBag(Give(ss, u, moved), at, true, m.key);
  }

  lemma {:induction false} SelectedBag(ss: seq<Section>, i: nat, unreleased: bool, k: ItemKey)
    requires i < |ss| && (ss[i].title == UNRELEASED) == unreleased && k in SubsBag(ss[i].subs)
    ensures k in Bag(Select(ss, unreleased))
  {
    hide SubsBag, Bag;
    var front, back := ss[..i], ss[i + 1..];
    assert ss == front + ([ss[i]] + back);
    SelectAppend(front, [ss[i]] + back, unreleased);
    SelectAppend([ss[i]], back, unreleased);
    SelectOne(ss[i], unreleased);
    BagAppend(Select(front, unreleased), Select([ss[i]] + back, unreleased));
    BagAppend([ss[i]], Select(back, unreleased));
    BagOne(ss[i]);
  }

  lemma {:induction false} SelectOne(s: Section, unreleased: bool)
    requires (s.title == UNRELEASED) == unreleased
    ensures Select([s], unreleased) == [s]
  {
    assert [s][1..] == [] && [s] + [] == [s];
  }

  // ----- dropping -----

  /** Every historical item of the first Unreleased section also stands somewhere else. */
  ghost predicate HistoryElsewhere(ss: seq<Section>, history: set<ItemKey>) {
    var u := Find(ss);
    u >= 0 ==> forall k :: k in history && k in SubsBag(ss[u].subs) ==> k in Bag(ss[..u]) || k in Bag(ss[u + 1..])
  }

  /** Dropping duplicates loses an item exactly when only the history knew it. */
  lemma {:induction false} DroppedItems(ss: seq<Section>, history: set<ItemKey>)
    ensures (forall k :: k in Bag(Dropped(ss, history)) <==> k in Bag(ss)) <==> HistoryElsewhere(ss, history)
    ensures Select(Dropped(ss, history), false) == Select(ss, false)
    ensures Bag(Dropped(ss, history)) <= Bag(ss)
  {
    hide SubsBag, Bag, Select, RestSubs, Find;
    var u := Find(ss);
    if u >= 0 {
      var released := Bag(Select(ss, false));
      var keys := (set k | k in released) + history;
      var p, s := HasKey(keys), ss[u];
      var front, back := Bag(ss[..u]), Bag(ss[u + 1..]);
      BagSplit(ss, u, Without(p, s));
      SubsRestBag(p, s.subs);
      WithoutSelect(ss, u, Without(p, s));
      forall k | k in released ensures k in front || k in back {
        ReleasedAreOthers(ss, u, k);
      }
      forall k ensures k in SubsBag(RestSubs(p, s.subs)) <==> k in SubsBag(s.subs) && k !in keys {
        RestByKey(keys, s.subs, k);
      }
      LostItems(front, SubsBag(s.subs), back, SubsBag(RestSubs(p, s.subs)), released, history);
    }
  }

  lemma {:induction false} LostItems(front: multiset<ItemKey>, mid: multiset<ItemKey>, back: multiset<ItemKey>,
    left: multiset<ItemKey>, released: multiset<ItemKey>, history: set<ItemKey>)
    requires forall k :: k in released ==> k in front || k in back
    requires forall k :: k in left <==> k in mid && !(k in released || k in history)
    ensures (forall k :: k in front + left + back <==> k in front + mid + back)
       <==> (forall k :: k in history && k in mid ==> k in front || k in back)
  {
    if forall k :: k in front + left + back <==> k in front + mid + back {
      forall k | k in history && k in mid ensures k in front || k in back {
        assert k in front + mid + back;
      }
    }
  }

  lemma {:induction false} WithoutSelect(ss: seq<Section>, u: nat, s: Section)
    requires u < |ss| && ss[u].title == UNRELEASED && s.title == UNRELEASED
    ensures Select(ss[u := s], false) == Select(ss, false)
  {
    hide Select;
    var front, back := ss[..u], ss[u + 1..];
    assert ss[u := s] == front + ([s] + back) && ss == front + ([ss[u]] + back);
    OneSelected(ss[u]);
    OneSelected(s);
    SelectAppend(front, [s] + back, false);
    SelectAppend([s], back, false);
    SelectAppend(front, [ss[u]] + back, false);
    SelectAppend([ss[u]], back, false);
  }

  lemma {:induction false} ReleasedAreOthers(ss: seq<Section>, u: nat, k: ItemKey)
    requires u < |ss| && ss[u].title == UNRELEASED && k in Bag(Select(ss, false))
    ensures k in Bag(ss[..u]) || k in Bag(ss[u + 1..])
  {
    hide Bag, Select;
    var front, back := ss[..u], ss[u + 1..];
    assert ss == front + ([ss[u]] + back);
    SelectAppend(front, [ss[u]] + back, false);
    SelectAppend([ss[u]], back, false);
    OneSelected(ss[u]);
    assert [] + Select(back, false) == Select(back, false);
    BagAppend(Select(front, false), Select(back, false));
    SelectBoth(front);
    SelectBoth(back);
  }

  lemma {:induction false} RestByKey(keys: set<ItemKey>, subs: seq<Sub>, k: ItemKey)
    ensures k in SubsBag(RestSubs(HasKey(keys), subs)) <==> k in SubsBag(subs) && k !in keys
  {
    hide LinesBag, Rest;
    var p := HasKey(keys);
    if subs != [] {
      RestByKey(keys, subs[1..], k);
      assert RestSubs(p, subs)[1..] == RestSubs(p, subs[1..]);
      RestLinesByKey(keys, subs[0].lines, k);
    }
  }

  lemma {:induction false} RestLinesByKey(keys: set<ItemKey>, ls: seq<Line>, k: ItemKey)
    ensures k in LinesBag(Rest(HasKey(keys), ls)) <==> k in LinesBag(ls) && k !in keys
  {
    hide Chunks, Rest, Key, Picked, Kept;
    var p, cs := HasKey(keys), Chunks(AtItem, ls);
    RestItems(p, ls);
    InKeys(cs, k);
    InKeys(Kept(p, cs), k);
  }

  lemma {:induction false} InKeys(cs: seq<seq<Line>>, k: ItemKey)
    ensures k in multiset(Keys(cs)) <==> exists c :: c in cs && Key(c) == k
  {
    hide Key;
    if c :| c in cs && Key(c) == k {
      var i :| 0 <= i < |cs| && cs[i] == c;
      assert Keys(cs)[i] == k;
    }
    if k in Keys(cs) {
      var i :| 0 <= i < |cs| && Keys(cs)[i] == k;
      assert cs[i] in cs;
    }
  }
}
