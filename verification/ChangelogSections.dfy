/**
 What the fixer does to sections and subsections, and what becomes of their items.
 */
module ChangelogSections {
  import opened ChangelogText
  import opened ChangelogItems
  import opened ChangelogMerge
  import opened ChangelogDocument

  const UNRELEASED := "Unreleased"

  // ----- the items of a document -----

  function LinesBag(ls: seq<Line>): multiset<ItemKey> { multiset(ItemKeys(ls)) }

  function SubsBag(subs: seq<Sub>): multiset<ItemKey> {
    if subs == [] then multiset{} else LinesBag(subs[0].lines) + SubsBag(subs[1..])
  }

  function Bag(ss: seq<Section>): multiset<ItemKey> {
    if ss == [] then multiset{} else SubsBag(ss[0].subs) + Bag(ss[1..])
  }

  function Select(ss: seq<Section>, unreleased: bool): seq<Section> {
    if ss == [] then []
    else (if (ss[0].title == UNRELEASED) == unreleased then [ss[0]] else []) + Select(ss[1..], unreleased)
  }

  /** The first section titled Unreleased, or -1. */
  function Find(ss: seq<Section>): (u: int)
    ensures -1 <= u < |ss| && (u >= 0 ==> ss[u].title == UNRELEASED)
    ensures forall i :: 0 <= i < |ss| && (u < 0 || i < u) ==> ss[i].title != UNRELEASED
  {
    if ss == [] then -1
    else if ss[0].title == UNRELEASED then 0
    else
      var u := Find(ss[1..]);
      assert forall i :: 0 < i < |ss| ==> ss[i] == ss[1..][i - 1];
      if u < 0 then -1 else u + 1
  }

  // ----- taking items out -----

  datatype Moved = Moved(title: string, key: ItemKey)

  function Moves(title: string, keys: seq<ItemKey>): (r: seq<Moved>)
    ensures |r| == |keys| && forall i :: 0 <= i < |keys| ==> r[i] == Moved(title, keys[i])
  {
    seq(|keys|, i requires 0 <= i < |keys| => Moved(title, keys[i]))
  }

  function TakenKeys(p: Pick, ls: seq<Line>): seq<ItemKey> { Keys(Picked(p, Chunks(AtItem, ls))) }

  function TakenSubs(p: Pick, subs: seq<Sub>): seq<Moved> {
    if subs == [] then [] else Moves(subs[0].title, TakenKeys(p, subs[0].lines)) + TakenSubs(p, subs[1..])
  }

  function RestSubs(p: Pick, subs: seq<Sub>): (r: seq<Sub>)
    ensures |r| == |subs| && forall i :: 0 <= i < |subs| ==> r[i] == Sub(subs[i].title, Rest(p, subs[i].lines))
  {
    seq(|subs|, i requires 0 <= i < |subs| => Sub(subs[i].title, Rest(p, subs[i].lines)))
  }

  function Without(p: Pick, s: Section): Section { s.(subs := RestSubs(p, s.subs)) }

  /** Released sections lose what is picked; Unreleased ones are passed over. */
  function Left(p: Pick, s: Section): Section { if s.title == UNRELEASED then s else Without(p, s) }

  function Lefts(p: Pick, ss: seq<Section>): (r: seq<Section>)
    ensures |r| == |ss| && forall i :: 0 <= i < |ss| ==> r[i] == Left(p, ss[i])
  {
    seq(|ss|, i requires 0 <= i < |ss| => Left(p, ss[i]))
  }

  function Taken(p: Pick, ss: seq<Section>): seq<Moved> {
    if ss == [] then []
    else (if ss[0].title == UNRELEASED then [] else TakenSubs(p, ss[0].subs)) + Taken(p, ss[1..])
  }

  function MovedBag(moved: seq<Moved>): multiset<ItemKey> {
    if moved == [] then multiset{} else multiset{moved[0].key} + MovedBag(moved[1..])
  }

  // ----- putting items in -----

  /** The last subsection with a title, or -1. */
  function LastTitled(subs: seq<Sub>, title: string): (i: int)
    ensures -1 <= i < |subs| && (i >= 0 ==> subs[i].title == title)
    ensures forall j :: i < j < |subs| ==> subs[j].title != title
  {
    if subs == [] then -1
    else if subs[|subs| - 1].title == title then |subs| - 1
    else LastTitled(subs[..|subs| - 1], title)
  }

  function WithSub(subs: seq<Sub>, title: string): (r: seq<Sub>)
    ensures LastTitled(r, title) >= 0
  {
    if LastTitled(subs, title) >= 0 then subs
    else
      assert (subs + [Sub(title, [])])[|subs|].title == title;
      subs + [Sub(title, [])]
  }

  predicate HasItem(ls: seq<Line>, item: seq<Text>) {
    Trim(item) == [] || Trim(item) in ItemKeys(ls)
  }

  function AddTo(ls: seq<Line>, item: seq<Text>): seq<Line> {
    if HasItem(ls, item) then ls else Appended(ls, item)
  }

  function AddItem(subs: seq<Sub>, m: Moved): seq<Sub> {
    var with := WithSub(subs, m.title);
    var i := LastTitled(with, m.title);
    with[i := Sub(m.title, AddTo(with[i].lines, m.key))]
  }

  function AddAll(subs: seq<Sub>, moved: seq<Moved>): seq<Sub>
    decreases |moved|
  {
    if moved == [] then subs else AddAll(AddItem(subs, moved[0]), moved[1..])
  }

  const NEW_UNRELEASED := Section(UNRELEASED, "## [Unreleased]", [], [])

  function Receive(s: Section, moved: seq<Moved>): Section { s.(subs := AddAll(s.subs, moved)) }

  /** Moved items go to the Unreleased section at `u`, or to a new one in front. */
  function Give(ss: seq<Section>, u: int, moved: seq<Moved>): seq<Section>
    requires -1 <= u < |ss|
  {
    if moved == [] then ss
    else if u >= 0 then ss[u := Receive(ss[u], moved)]
    else [Receive(NEW_UNRELEASED, moved)] + ss
  }

  function Promoted(p: Pick, ss: seq<Section>): seq<Section> {
    Give(Lefts(p, ss), Find(ss), Taken(p, ss))
  }

  // ----- dropping duplicates of released items -----

  function Dropped(ss: seq<Section>, history: set<ItemKey>): seq<Section> {
    var u := Find(ss);
    if u < 0 then ss
    else
      var keys := (set k | k in Bag(Select(ss, false))) + history;
      ss[u := Without(HasKey(keys), ss[u])]
  }

  // ----- normalizing -----

  function MergeInto(merged: seq<Sub>, b: Sub): seq<Sub> {
    var lines := Compacted(Trim(Texts(b.lines)));
    var i := LastTitled(merged, b.title);
    if lines == [] then merged
    else if i >= 0 then merged[i := Sub(b.title, Appended(merged[i].lines, lines))]
    else merged + [Sub(b.title, Synthetic(lines))]
  }

  function MergeAll(subs: seq<Sub>): seq<Sub> {
    if subs == [] then [] else MergeInto(MergeAll(subs[..|subs| - 1]), subs[|subs| - 1])
  }

  /** No subsection that repeats the title of an earlier one with items starts with prose. */
  predicate NoProseMerge(subs: seq<Sub>) {
    forall i, j :: 0 <= i < j < |subs| && subs[i].title == subs[j].title && HasItems(subs[i].lines)
      ==> StartsClean(subs[j].lines)
  }

  // ----- bags, piece by piece -----

  lemma {:induction false} SubsBagAppend(a: seq<Sub>, b: seq<Sub>)
    ensures SubsBag(a + b) == SubsBag(a) + SubsBag(b)
  {
    hide LinesBag;
    if a == [] {
      assert a + b == b;
    } else {
      assert (a + b)[1..] == a[1..] + b;
      SubsBagAppend(a[1..], b);
    }
  }

  lemma {:induction false} SubsBagOne(b: Sub)
    ensures SubsBag([b]) == LinesBag(b.lines)
  {
    hide LinesBag;
    assert [b][1..] == [] && SubsBag([]) == multiset{};
  }

  lemma {:induction false} SubsBagSplit(subs: seq<Sub>, i: nat, b: Sub)
    requires i < |subs|
    ensures SubsBag(subs[i := b]) == SubsBag(subs[..i]) + LinesBag(b.lines) + SubsBag(subs[i + 1..])
    ensures SubsBag(subs) == SubsBag(subs[..i]) + LinesBag(subs[i].lines) + SubsBag(subs[i + 1..])
  {
    hide LinesBag, SubsBag;
    assert subs[i := b] == subs[..i] + ([b] + subs[i + 1..]);
    assert subs == subs[..i] + ([subs[i]] + subs[i + 1..]);
    SubsBagAppend(subs[..i], [b] + subs[i + 1..]);
    SubsBagAppend(subs[..i], [subs[i]] + subs[i + 1..]);
    SubsBagAppend([b], subs[i + 1..]);
    SubsBagAppend([subs[i]], subs[i + 1..]);
    SubsBagOne(b);
    SubsBagOne(subs[i]);
  }

  lemma {:induction false} BagAppend(a: seq<Section>, b: seq<Section>)
    ensures Bag(a + b) == Bag(a) + Bag(b)
  {
    hide SubsBag;
    if a == [] {
      assert a + b == b;
    } else {
      assert (a + b)[1..] == a[1..] + b;
      BagAppend(a[1..], b);
    }
  }

  lemma {:induction false} BagSplit(ss: seq<Section>, i: nat, s: Section)
    requires i < |ss|
    ensures Bag(ss[i := s]) == Bag(ss[..i]) + SubsBag(s.subs) + Bag(ss[i + 1..])
    ensures Bag(ss) == Bag(ss[..i]) + SubsBag(ss[i].subs) + Bag(ss[i + 1..])
  {
    hide SubsBag, Bag;
    assert ss[i := s] == ss[..i] + ([s] + ss[i + 1..]);
    assert ss == ss[..i] + ([ss[i]] + ss[i + 1..]);
    BagAppend(ss[..i], [s] + ss[i + 1..]);
    BagAppend(ss[..i], [ss[i]] + ss[i + 1..]);
    BagAppend([s], ss[i + 1..]);
    BagAppend([ss[i]], ss[i + 1..]);
    BagOne(s);
    BagOne(ss[i]);
  }

  lemma {:induction false} BagOne(s: Section)
    ensures Bag([s]) == SubsBag(s.subs)
  {
    hide SubsBag;
    assert [s][1..] == [] && Bag([]) == multiset{};
  }

  lemma {:induction false} SelectAppend(a: seq<Section>, b: seq<Section>, unreleased: bool)
    ensures Select(a + b, unreleased) == Select(a, unreleased) + Select(b, unreleased)
  {
    if a == [] {
      assert a + b == b;
    } else {
      assert (a + b)[1..] == a[1..] + b;
      SelectAppend(a[1..], b, unreleased);
    }
  }

  lemma {:induction false} SelectBoth(ss: seq<Section>)
    ensures Bag(ss) == Bag(Select(ss, true)) + Bag(Select(ss, false))
  {
    hide SubsBag;
    if ss != [] {
      var s, rest := ss[0], ss[1..];
      SelectBoth(rest);
      var same, other := Select(rest, s.title == UNRELEASED), Select(rest, s.title != UNRELEASED);
      BagAppend([s], same);
      BagOne(s);
      assert Select(ss, s.title == UNRELEASED) == [s] + same;
      assert Select(ss, s.title != UNRELEASED) == [] + other == other;
    }
  }

  lemma {:induction false} MovedBagAppend(a: seq<Moved>, b: seq<Moved>)
    ensures MovedBag(a + b) == MovedBag(a) + MovedBag(b)
  {
    if a == [] {
      assert a + b == b;
    } else {
      assert (a + b)[1..] == a[1..] + b;
      MovedBagAppend(a[1..], b);
    }
  }

  lemma {:induction false} MovesBag(title: string, keys: seq<ItemKey>)
    ensures MovedBag(Moves(title, keys)) == multiset(keys)
  {
    if keys != [] {
      MovesBag(title, keys[1..]);
      assert Moves(title, keys)[1..] == Moves(title, keys[1..]);
      assert keys == [keys[0]] + keys[1..];
    }
  }

  lemma {:induction false} InMoved(moved: seq<Moved>, k: ItemKey)
    ensures k in MovedBag(moved) <==> exists m :: m in moved && m.key == k
  {
    if moved != [] {
      InMoved(moved[1..], k);
      assert moved == [moved[0]] + moved[1..];
      assert forall m :: m in moved <==> m == moved[0] || m in moved[1..];
    }
  }
}
