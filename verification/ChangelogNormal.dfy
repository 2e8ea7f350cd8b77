/**
 Normalizing merges subsections with the same title. It keeps every item exactly when no prose is
 merged behind one.
 */
module ChangelogNormal {
  import opened ChangelogText
  import opened ChangelogItems
  import opened ChangelogMerge
  import opened ChangelogDocument
  import opened ChangelogSections
  import opened ChangelogSort
  import opened StableSorting

  const ORDERED_TITLES := ["Breaking Changes", "Added", "Changed", "Fixed", "Removed"]

  function TitleOrder(title: string): nat { OrderFrom(title, 0) }

  function OrderFrom(title: string, i: nat): nat
    decreases |ORDERED_TITLES| - i
  {
    if i >= |ORDERED_TITLES| || ORDERED_TITLES[i] == title then i else OrderFrom(title, i + 1)
  }

  predicate SubAfter(a: Sub, b: Sub) { TitleOrder(a.title) > TitleOrder(b.title) }

  function Normalized(s: Section): Section {
    var subs := MergeAll(s.subs);
    s.(lead := Synthetic(Trim(Texts(s.lead))),
       subs := if s.title == UNRELEASED then StableSort(subs, SubAfter) else subs)
  }

  function NormalizedAll(ss: seq<Section>): (r: seq<Section>)
    ensures |r| == |ss| && forall i :: 0 <= i < |ss| ==> r[i] == Normalized(ss[i])
  {
    seq(|ss|, i requires 0 <= i < |ss| => Normalized(ss[i]))
  }

  // ----- total length of the items -----

  ghost function Weight(m: multiset<ItemKey>): nat
    decreases |m|
  {
    if m == multiset{} then 0
    else
      var k :| k in m;
      |k| + Weight(m - multiset{k})
  }

  lemma {:induction false} WeightOne(m: multiset<ItemKey>, k: ItemKey)
    requires k in m
    ensures Weight(m) == |k| + Weight(m - multiset{k})
    decreases |m|
  {
    var x :| x in m && Weight(m) == |x| + Weight(m - multiset{x});
    hide Weight;
    if x != k {
      TakeTwo(m, x, k);
      WeightOne(m - multiset{x}, k);
      WeightOne(m - multiset{k}, x);
    }
  }

  lemma {:induction false} TakeTwo(m: multiset<ItemKey>, x: ItemKey, k: ItemKey)
    requires x != k && x in m && k in m
    ensures k in m - multiset{x} && x in m - multiset{k} && |m - multiset{x}| < |m| && |m - multiset{k}| < |m|
    ensures m - multiset{x} - multiset{k} == m - multiset{k} - multiset{x}
  {
  }

  lemma {:induction false} WeightAdd(a: multiset<ItemKey>, b: multiset<ItemKey>)
    ensures Weight(a + b) == Weight(a) + Weight(b)
    decreases |b|
  {
    if b == multiset{} {
      assert a + b == a;
    } else {
      var k :| k in b;
      WeightOne(b, k);
      WeightOne(a + b, k);
      assert a + b - multiset{k} == a + (b - multiset{k});
      WeightAdd(a, b - multiset{k});
    }
  }

  lemma {:induction false} WeightSingle(k: ItemKey)
    ensures Weight(multiset{k}) == |k|
  {
    WeightOne(multiset{k}, k);
    assert multiset{k} - multiset{k} == multiset{};
  }

  // ----- one merge -----

  lemma {:induction false} JoinedBag(clean: bool, was: seq<ItemKey>, more: seq<ItemKey>, now: seq<ItemKey>)
    requires Joined(clean, was, more, now)
    ensures clean ==> multiset(now) == multiset(was) + multiset(more)
    ensures !clean ==> Weight(multiset(now)) > Weight(multiset(was)) + Weight(multiset(more))
  {
    hide Weight;
    if !clean {
      var n := |was| - 1;
      var front := was[..n];
      assert was == front + [was[n]] && now == front + [now[n]] + now[n + 1..];
      assert multiset(was) == multiset(front) + multiset{was[n]};
      assert multiset(now) == multiset(front) + multiset{now[n]} + multiset(more);
      WeightAdd(multiset(front), multiset{was[n]});
      WeightAdd(multiset(front), multiset{now[n]});
      WeightAdd(multiset(front) + multiset{now[n]}, multiset(more));
      WeightSingle(was[n]);
      WeightSingle(now[n]);
    }
  }

  /** Some subsection with this title has items. */
  predicate ItemsTitled(subs: seq<Sub>, title: string) {
    exists i :: 0 <= i < |subs| && subs[i].title == title && HasItems(subs[i].lines)
  }

  predicate Distinct(subs: seq<Sub>) {
    forall i, j :: 0 <= i < j < |subs| ==> subs[i].title != subs[j].title
  }

  predicate CleanStep(merged: seq<Sub>, b: Sub) { ItemsTitled(merged, b.title) ==> StartsClean(b.lines) }

  lemma {:induction false} CompactedSub(b: Sub)
    ensures var c := Compacted(Trim(Texts(b.lines))); var ls := Synthetic(c);
      && (c == [] <==> AllBlank(Texts(b.lines)))
      && ItemKeys(ls) == ItemKeys(b.lines) && (HasItems(ls) <==> HasItems(b.lines))
      && (StartsClean(ls) <==> StartsClean(b.lines))
      && (c == [] ==> ItemKeys(b.lines) == [] && !HasItems(b.lines) && StartsClean(b.lines))
  {
    hide Trim, ItemKeys, HasItems, StartsClean, Compacted;
    CompactedItems(b.lines);
    SameCompacted(Texts(b.lines));
    if AllBlank(Texts(b.lines)) { BlankItems(b.lines); }
  }

  lemma {:induction false} MergeStep(merged: seq<Sub>, b: Sub)
    requires Distinct(merged)
    ensures Distinct(MergeInto(merged, b))
    ensures CleanStep(merged, b) ==> SubsBag(MergeInto(merged, b)) == SubsBag(merged) + LinesBag(b.lines)
    ensures !CleanStep(merged, b)
        ==> Weight(SubsBag(MergeInto(merged, b))) > Weight(SubsBag(merged)) + Weight(LinesBag(b.lines))
  {
    hide Trim, ItemKeys, HasItems, StartsClean, Compacted, SubsBag, Weight, Appended;
    var c, i := Compacted(Trim(Texts(b.lines))), LastTitled(merged, b.title);
    CompactedSub(b);
    if c == [] {
    } else if i >= 0 {
      var was := merged[i].lines;
      var joined := Sub(b.title, Appended(was, c));
      AppendedItems(was, c);
      TitledAt(merged, i);
      JoinedBag(JoinsCleanly(was, c), ItemKeys(was), ItemKeys(b.lines), ItemKeys(joined.lines));
      SubsBagSplit(merged, i, joined);
      MergedWeight(merged, i, joined, LinesBag(b.lines));
    } else {
      var one := Sub(b.title, Synthetic(c));
      SubsBagAppend(merged, [one]);
      SubsBagOne(one);
    }
  }

  lemma {:induction false} TitledAt(merged: seq<Sub>, i: nat)
    requires Distinct(merged) && i < |merged|
    ensures ItemsTitled(merged, merged[i].title) <==> HasItems(merged[i].lines)
  {
    hide HasItems;
  }

  lemma {:induction false} MergedWeight(merged: seq<Sub>, i: nat, b: Sub, more: multiset<ItemKey>)
    requires i < |merged|
    ensures Weight(LinesBag(b.lines)) > Weight(LinesBag(merged[i].lines)) + Weight(more)
        ==> Weight(SubsBag(merged[i := b])) > Weight(SubsBag(merged)) + Weight(more)
  {
    hide Weight, SubsBag, LinesBag;
    SubsBagSplit(merged, i, b);
    var front, back := SubsBag(merged[..i]), SubsBag(merged[i + 1..]);
    WeightAdd(front, LinesBag(b.lines));
    WeightAdd(front + LinesBag(b.lines), back);
    WeightAdd(front, LinesBag(merged[i].lines));
    WeightAdd(front + LinesBag(merged[i].lines), back);
  }

  lemma {:induction false} MergeTitles(merged: seq<Sub>, b: Sub, title: string)
    requires Distinct(merged)
    ensures ItemsTitled(MergeInto(merged, b), title)
       <==> ItemsTitled(merged, title) || (b.title == title && HasItems(b.lines))
  {
    hide Trim, ItemKeys, HasItems, StartsClean, Compacted, Appended;
    var c, i := Compacted(Trim(Texts(b.lines))), LastTitled(merged, b.title);
    CompactedSub(b);
    var now := MergeInto(merged, b);
    if c == [] {
    } else if i >= 0 {
      AppendedItems(merged[i].lines, c);
      SameButOne(merged, now, i, title);
    } else {
      assert forall j :: 0 <= j < |merged| ==> now[j] == merged[j];
      assert now[|merged|].title == b.title;
    }
  }

  lemma {:induction false} SameButOne(a: seq<Sub>, b: seq<Sub>, i: nat, title: string)
    requires i < |a| == |b| && (forall j :: 0 <= j < |a| && j != i ==> a[j] == b[j]) && a[i].title == b[i].title
    requires HasItems(a[i].lines) ==> HasItems(b[i].lines)
    ensures ItemsTitled(b, title) <==> ItemsTitled(a, title) || (b[i].title == title && HasItems(b[i].lines))
  {
    hide HasItems;
    if ItemsTitled(a, title) {
      var j :| 0 <= j < |a| && a[j].title == title && HasItems(a[j].lines);
      assert b[j].title == title && HasItems(b[j].lines);
    }
    if ItemsTitled(b, title) {
      var j :| 0 <= j < |b| && b[j].title == title && HasItems(b[j].lines);
      if j != i { assert a[j].title == title && HasItems(a[j].lines); }
    }
  }

  // ----- all merges -----

  lemma {:induction false} MergedDistinct(subs: seq<Sub>)
    ensures Distinct(MergeAll(subs))
  {
    hide MergeInto;
    if subs != [] {
      MergedDistinct(subs[..|subs| - 1]);
      MergeStep(MergeAll(subs[..|subs| - 1]), subs[|subs| - 1]);
    }
  }

  lemma {:induction false} TitledEnd(front: seq<Sub>, b: Sub, title: string)
    ensures ItemsTitled(front + [b], title) <==> ItemsTitled(front, title) || (b.title == title && HasItems(b.lines))
  {
    hide HasItems;
    assert forall j :: 0 <= j < |front| ==> (front + [b])[j] == front[j];
    assert (front + [b])[|front|] == b;
  }

  lemma {:induction false} MergedTitles(subs: seq<Sub>, title: string)
    ensures ItemsTitled(MergeAll(subs), title) <==> ItemsTitled(subs, title)
  {
    hide MergeInto, ItemsTitled, HasItems, Distinct;
    if subs != [] {
      var front, b := subs[..|subs| - 1], subs[|subs| - 1];
      MergedTitles(front, title);
      MergedDistinct(front);
      MergeTitles(MergeAll(front), b, title);
      assert subs == front + [b];
      TitledEnd(front, b, title);
    }
  }

  lemma {:induction false} ProseStep(front: seq<Sub>, b: Sub)
    ensures NoProseMerge(front + [b]) <==> NoProseMerge(front) && CleanStep(front, b)
  {
    hide HasItems, StartsClean;
    var subs := front + [b];
    assert forall j :: 0 <= j < |front| ==> subs[j] == front[j];
    if NoProseMerge(front) && CleanStep(front, b) {
      forall i, j | 0 <= i < j < |subs| && subs[i].title == subs[j].title && HasItems(subs[i].lines)
        ensures StartsClean(subs[j].lines)
      {
        if j == |front| { assert front[i].title == b.title && HasItems(front[i].lines); }
      }
    }
    if NoProseMerge(subs) && ItemsTitled(front, b.title) {
      var i :| 0 <= i < |front| && front[i].title == b.title && HasItems(front[i].lines);
      assert subs[i].title == subs[|front|].title && HasItems(subs[i].lines);
    }
  }

  /** Merging keeps all items when it merges no prose behind one, and lengthens them in total otherwise. */
  lemma {:induction false} MergedBag(subs: seq<Sub>)
    ensures NoProseMerge(subs) ==> SubsBag(MergeAll(subs)) == SubsBag(subs)
    ensures !NoProseMerge(subs) ==> Weight(SubsBag(MergeAll(subs))) > Weight(SubsBag(subs))
  {
    hide MergeInto, HasItems, StartsClean, Weight, LinesBag, NoProseMerge, ItemsTitled;
    if subs == [] {
      NoProseInNone();
    } else {
      var front, b := subs[..|subs| - 1], subs[|subs| - 1];
      MergedBag(front);
      MergedTitles(front, b.title);
      MergedDistinct(front);
      MergeStep(MergeAll(front), b);
      assert subs == front + [b];
      ProseStep(front, b);
      SubsBagAppend(front, [b]);
      SubsBagOne(b);
      assert MergeAll(subs) == MergeInto(MergeAll(front), b);
      WeightAdd(SubsBag(front), LinesBag(b.lines));
      WeightAdd(SubsBag(MergeAll(front)), LinesBag(b.lines));
    }
  }

  lemma {:induction false} NoProseInNone()
    ensures NoProseMerge([])
  {
  }

  /** Where one permutation has its first element, the other has it too. */
  lemma {:induction false} SameFirst<T>(a: seq<T>, b: seq<T>) returns (i: nat)
    requires a != [] && multiset(a) == multiset(b)
    ensures i < |b| && b[i] == a[0] && b == b[..i] + ([a[0]] + b[i + 1..])
    ensures multiset(a[1..]) == multiset(b[..i] + b[i + 1..])
  {
    assert a[0] in multiset(a);
    i :| 0 <= i < |b| && b[i] == a[0];
    var front, back := b[..i], b[i + 1..];
    assert b == front + ([a[0]] + back) && a == [a[0]] + a[1..];
    BagOf(front, a[0], back);
    BagOfFirst(a);
    Cancel(multiset(a[1..]), multiset(front + back), a[0]);
  }

  lemma {:induction false} BagOf<T>(front: seq<T>, x: T, back: seq<T>)
    ensures multiset(front + ([x] + back)) == multiset(front + back) + multiset{x}
  {
  }

  lemma {:induction false} BagOfFirst<T>(a: seq<T>)
    requires a != []
    ensures multiset(a) == multiset(a[1..]) + multiset{a[0]}
  {
    assert a == [a[0]] + a[1..];
  }

  lemma {:induction false} Cancel<T>(a: multiset<T>, b: multiset<T>, x: T)
    requires a + multiset{x} == b + multiset{x}
    ensures a == b
  {
    assert a == a + multiset{x} - multiset{x} && b == b + multiset{x} - multiset{x};
  }

  lemma {:induction false} PermutedSubs(a: seq<Sub>, b: seq<Sub>)
    requires multiset(a) == multiset(b)
    ensures SubsBag(a) == SubsBag(b)
  {
    hide LinesBag, SubsBag;
    if a == [] {
      assert |multiset(b)| == |b|;
    } else {
      var i := SameFirst(a, b);
      var x, front, back := a[0], b[..i], b[i + 1..];
      PermutedSubs(a[1..], front + back);
      assert a == [x] + a[1..];
      SubsBagAppend([x], a[1..]);
      SubsBagAppend(front, [x] + back);
      SubsBagAppend([x], back);
      SubsBagAppend(front, back);
    }
  }

  /** Normalizing one section keeps its items or makes them longer in total. */
  lemma {:induction false} NormalizedWeight(s: Section)
    ensures NoProseMerge(s.subs) ==> SubsBag(Normalized(s).subs) == SubsBag(s.subs)
    ensures !NoProseMerge(s.subs) ==> Weight(SubsBag(Normalized(s).subs)) > Weight(SubsBag(s.subs))
  {
    hide SubsBag, Weight, NoProseMerge, MergeAll;
    MergedBag(s.subs);
    SortKeeps(MergeAll(s.subs), SubAfter);
    if s.title == UNRELEASED {
      PermutedSubs(Normalized(s).subs, MergeAll(s.subs));
    }
  }

  /** Normalizing a section keeps its items, each as often, exactly when no prose is merged behind an item. */
  lemma {:induction false} NormalizedItems(s: Section)
    ensures SubsBag(Normalized(s).subs) == SubsBag(s.subs) <==> NoProseMerge(s.subs)
  {
    hide SubsBag, NoProseMerge, Normalized;
    NormalizedWeight(s);
  }

  /** After normalizing, each title heads one subsection, and Unreleased has them in the fixed order. */
  lemma {:induction false} NormalizedShape(s: Section)
    ensures Distinct(Normalized(s).subs)
    ensures s.title == UNRELEASED ==> Sorted(Normalized(s).subs, SubAfter)
  {
    hide MergeAll, TitleOrder;
    MergedDistinct(s.subs);
    if s.title == UNRELEASED {
      var subs, sorted := MergeAll(s.subs), StableSort(MergeAll(s.subs), SubAfter);
      SortSorts(subs, SubAfter);
      SortKeeps(subs, SubAfter);
      DistinctPermuted(subs, sorted);
    }
  }

  lemma {:induction false} TwiceIn(b: seq<Sub>, i: nat, j: nat)
    requires i < j < |b|
    ensures b[i] == b[j] ==> multiset(b)[b[i]] >= 2
  {
    assert b == b[..j] + b[j..];
    assert b[i] in multiset(b[..j]) && b[j] in multiset(b[j..]);
  }

  lemma {:induction false} OnceIn(a: seq<Sub>, p: nat)
    requires Distinct(a) && p < |a|
    ensures multiset(a)[a[p]] == 1
  {
    assert a == a[..p] + [a[p]] + a[p + 1..];
    assert a[p] !in a[..p] && a[p] !in a[p + 1..];
  }

  lemma {:induction false} DistinctPermuted(a: seq<Sub>, b: seq<Sub>)
    requires Distinct(a) && multiset(a) == multiset(b)
    ensures Distinct(b)
  {
    forall i, j | 0 <= i < j < |b| ensures b[i].title != b[j].title {
      assert b[i] in multiset(b) && b[j] in multiset(b);
      var p :| 0 <= p < |a| && a[p] == b[i];
      var q :| 0 <= q < |a| && a[q] == b[j];
      TwiceIn(b, i, j);
      OnceIn(a, p);
    }
  }

  lemma {:induction false} OrderIs(title: string)
    ensures TitleOrder(title) <= 5
    ensures TitleOrder("Breaking Changes") == 0 && TitleOrder("Added") == 1 && TitleOrder("Changed") == 2
    ensures TitleOrder("Fixed") == 3 && TitleOrder("Removed") == 4
    ensures TitleOrder(title) == 5
       <==> title !in ["Breaking Changes", "Added", "Changed", "Fixed", "Removed"]
  {
    OrderAt(title, 0);
    OrderAt("Breaking Changes", 0);
    OrderAt("Added", 0);
    OrderAt("Changed", 0);
    OrderAt("Fixed", 0);
    OrderAt("Removed", 0);
    TitlesApart();
  }

  lemma {:induction false} TitlesApart()
    ensures forall i, j :: 0 <= i < j < 5 ==> ORDERED_TITLES[i] != ORDERED_TITLES[j]
  {
    assert |ORDERED_TITLES[0]| == 16 && |ORDERED_TITLES[1]| == 5 && |ORDERED_TITLES[2]| == 7;
    assert ORDERED_TITLES[1][0] == 'A' && ORDERED_TITLES[2][0] == 'C';
    assert ORDERED_TITLES[3][0] == 'F' && ORDERED_TITLES[4][0] == 'R';
  }

  lemma {:induction false} OrderAt(title: string, i: nat)
    requires i <= 5
    ensures i <= OrderFrom(title, i) <= 5
    ensures OrderFrom(title, i) < 5 ==> ORDERED_TITLES[OrderFrom(title, i)] == title
    ensures forall k :: i <= k < OrderFrom(title, i) ==> ORDERED_TITLES[k] != title
    decreases 5 - i
  {
    if i < 5 && ORDERED_TITLES[i] != title { OrderAt(title, i + 1); }
  }

  /** In Unreleased the five known titles stand in their order, and all others behind them. */
  lemma {:induction false} UnreleasedOrder(s: Section, i: nat, j: nat)
    requires s.title == UNRELEASED && i < j < |Normalized(s).subs|
    ensures var known := ["Breaking Changes", "Added", "Changed", "Fixed", "Removed"];
      var a, b := Normalized(s).subs[i].title, Normalized(s).subs[j].title;
      && (b in known ==> a in known)
      && (forall x, y :: 0 <= x < 5 && 0 <= y < 5 && known[x] == a && known[y] == b ==> x < y)
  {
    hide Normalized, TitleOrder;
    NormalizedShape(s);
    OrderIs(Normalized(s).subs[i].title);
    OrderIs(Normalized(s).subs[j].title);
  }
}
