/**
 The items of one run of lines: taking some out by line number, adding others, closing the gaps.
 */
module ChangelogItems {
  import opened ChangelogText

  type ItemKey = seq<Text>

  predicate HasItems(ls: seq<Line>) { Chunks(AtItem, ls) != [] }

  /** No prose in front of the first item. */
  predicate StartsClean(ls: seq<Line>) { AllBlank(Texts(Lead(AtItem, ls))) }

  // ----- choosing items -----

  datatype Pick = HasKey(keys: set<ItemKey>) | StartsAt(lines: set<nat>)

  predicate Picks(p: Pick, c: seq<Line>)
    requires c != []
  {
    match p
    case HasKey(keys) => Key(c) in keys
    case StartsAt(lines) => c[0].at in lines
  }

  function Picked(p: Pick, cs: seq<seq<Line>>): (r: seq<seq<Line>>)
    requires AreChunks(AtItem, cs)
    ensures AreChunks(AtItem, r) && forall c :: c in r <==> c in cs && Picks(p, c)
  {
    if cs == [] then []
    else
      assert cs[0] in cs && cs == [cs[0]] + cs[1..];
      (if Picks(p, cs[0]) then [cs[0]] else []) + Picked(p, cs[1..])
  }

  function Kept(p: Pick, cs: seq<seq<Line>>): (r: seq<seq<Line>>)
    requires AreChunks(AtItem, cs)
    ensures AreChunks(AtItem, r) && forall c :: c in r <==> c in cs && !Picks(p, c)
  {
    if cs == [] then []
    else
      assert cs[0] in cs && cs == [cs[0]] + cs[1..];
      (if Picks(p, cs[0]) then [] else [cs[0]]) + Kept(p, cs[1..])
  }

  /** The lines without the picked items. */
  function Rest(p: Pick, ls: seq<Line>): seq<Line> {
    Lead(AtItem, ls) + Flatten(Kept(p, Chunks(AtItem, ls)))
  }

  lemma {:induction false} RestItems(p: Pick, ls: seq<Line>)
    ensures Lead(AtItem, Rest(p, ls)) == Lead(AtItem, ls)
    ensures Chunks(AtItem, Rest(p, ls)) == Kept(p, Chunks(AtItem, ls))
  {
    hide Chunks, Lead, Kept;
    ChunksOf(AtItem, Lead(AtItem, ls), Kept(p, Chunks(AtItem, ls)));
  }

  lemma {:induction false} KeptOrPicked(p: Pick, cs: seq<seq<Line>>)
    requires AreChunks(AtItem, cs)
    ensures multiset(Keys(cs)) == multiset(Keys(Kept(p, cs))) + multiset(Keys(Picked(p, cs)))
    ensures Picked(p, cs) == [] ==> Kept(p, cs) == cs
  {
    hide Key, Picks, Keys, Kept, Picked;
    if cs == [] {
      NoKeys();
      NoPicks(p);
    } else {
      var c, rest := cs[0], cs[1..];
      assert c in cs && cs == [c] + rest;
      KeptOrPicked(p, rest);
      PickStep(p, c, rest);
      KeysCons(c, rest);
      KeysCons(c, Kept(p, rest));
      KeysCons(c, Picked(p, rest));
    }
  }

  lemma {:induction false} NoPicks(p: Pick)
    ensures Kept(p, []) == [] && Picked(p, []) == []
  {
  }

  lemma {:induction false} PickStep(p: Pick, c: seq<Line>, rest: seq<seq<Line>>)
    requires AreChunks(AtItem, [c] + rest)
    ensures c in [c] + rest && AreChunks(AtItem, rest)
    ensures Kept(p, [c] + rest) == if Picks(p, c) then Kept(p, rest) else [c] + Kept(p, rest)
    ensures Picked(p, [c] + rest) == if Picks(p, c) then [c] + Picked(p, rest) else Picked(p, rest)
  {
    hide Picks;
    assert c in [c] + rest && ([c] + rest)[1..] == rest;
    assert forall d :: d in rest ==> d in [c] + rest;
  }

  lemma {:induction false} NoKeys()
    ensures Keys([]) == []
  {
  }

  lemma {:induction false} KeysCons(c: seq<Line>, cs: seq<seq<Line>>)
    ensures Keys([c] + cs) == [Key(c)] + Keys(cs)
    ensures multiset(Keys([c] + cs)) == multiset{Key(c)} + multiset(Keys(cs))
  {
    hide Key;
    assert Keys([c] + cs) == [Key(c)] + Keys(cs);
  }

  // ----- removing lines by number -----

  predicate Increasing(ls: seq<Line>) {
    forall i, j :: 0 <= i < j < |ls| ==> ls[i].at < ls[j].at
  }

  predicate InRanges(items: seq<ParsedItem>, n: nat) {
    exists item :: item in items && item.start <= n <= item.end
  }

  function Outside(items: seq<ParsedItem>, ls: seq<Line>): seq<Line> {
    if ls == [] then []
    else (if InRanges(items, ls[0].at) then [] else [ls[0]]) + Outside(items, ls[1..])
  }

  lemma {:induction false} OutsideAppend(items: seq<ParsedItem>, a: seq<Line>, b: seq<Line>)
    ensures Outside(items, a + b) == Outside(items, a) + Outside(items, b)
  {
    hide InRanges;
    if a == [] {
      assert a + b == b;
    } else {
      assert (a + b)[1..] == a[1..] + b;
      OutsideAppend(items, a[1..], b);
    }
  }

  lemma {:induction false} OutsideSame(items: seq<ParsedItem>, ls: seq<Line>, within: bool)
    requires forall l :: l in ls ==> InRanges(items, l.at) == within
    ensures Outside(items, ls) == if within then [] else ls
  {
    hide InRanges;
    if ls != [] {
      assert ls[0] in ls;
      OutsideSame(items, ls[1..], within);
    }
  }

  predicate Spans(c: seq<Line>, n: nat)
    requires c != []
  {
    c[0].at <= n <= c[|c| - 1].at
  }

  lemma {:induction false} RangesOf(p: Pick, cs: seq<seq<Line>>, n: nat)
    requires AreChunks(AtItem, cs)
    ensures InRanges(ParsedItems(Picked(p, cs)), n) <==> exists d :: d in cs && Picks(p, d) && Spans(d, n)
  {
    hide Key, Picks, Chunks, InRanges, Spans;
    var chosen := Picked(p, cs);
    ItemRanges(chosen, n);
    assert forall d :: d in chosen <==> d in cs && Picks(p, d);
  }

  lemma {:induction false} ItemRanges(chosen: seq<seq<Line>>, n: nat)
    requires AreChunks(AtItem, chosen)
    ensures InRanges(ParsedItems(chosen), n) <==> exists d :: d in chosen && Spans(d, n)
  {
    hide Key;
    var items := ParsedItems(chosen);
    assert forall i :: 0 <= i < |chosen| ==> items[i] in items;
  }

  /** With increasing numbers, only a chunk's own lines fall between its ends. */
  lemma {:induction false} OwnLines(cs: seq<seq<Line>>, c: seq<Line>, d: seq<Line>, l: Line)
    requires AreChunks(AtItem, cs) && Increasing(Flatten(cs)) && c in cs && d in cs && l in c
    ensures Spans(d, l.at) <==> c == d
  {
    var first, rest := cs[0], cs[1..];
    var later := Flatten(rest);
    Apart(first, later);
    assert cs == [first] + rest;
    if c in rest {
      InFlattened(rest, c, l);
      InFlattened(rest, c, c[0]);
    }
    if d in rest {
      InFlattened(rest, d, d[0]);
      InFlattened(rest, d, d[|d| - 1]);
    }
    if c in rest && d in rest {
      OwnLines(rest, c, d, l);
    }
  }

  lemma {:induction false} Apart(first: seq<Line>, later: seq<Line>)
    requires Increasing(first + later)
    ensures Increasing(later) && forall x, y :: x in first && y in later ==> x.at < y.at
    ensures forall x :: x in first ==> first[0].at <= x.at <= first[|first| - 1].at
  {
    var all := first + later;
    assert forall i :: 0 <= i < |later| ==> later[i] == all[|first| + i];
    assert forall i :: 0 <= i < |first| ==> first[i] == all[i];
  }

  /** A line is in the range of a picked item exactly when it belongs to one. */
  lemma {:induction false} RangesAreItems(p: Pick, cs: seq<seq<Line>>, c: seq<Line>, l: Line)
    requires AreChunks(AtItem, cs) && Increasing(Flatten(cs)) && c in cs && l in c
    ensures InRanges(ParsedItems(Picked(p, cs)), l.at) <==> Picks(p, c)
  {
    hide Key, Picks, InRanges, Spans;
    RangesOf(p, cs, l.at);
    forall d | d in cs ensures Spans(d, l.at) <==> c == d {
      OwnLines(cs, c, d, l);
    }
  }

  lemma {:induction false} BeforeRanges(p: Pick, cs: seq<seq<Line>>, n: nat)
    requires AreChunks(AtItem, cs) && forall l :: l in Flatten(cs) ==> n < l.at
    ensures !InRanges(ParsedItems(Picked(p, cs)), n)
  {
    hide Key, Picks, InRanges;
    RangesOf(p, cs, n);
    forall d | d in cs ensures !Spans(d, n) {
      InFlattened(cs, d, d[0]);
    }
  }

  lemma {:induction false} InFlattened(cs: seq<seq<Line>>, c: seq<Line>, l: Line)
    requires c in cs && l in c
    ensures l in Flatten(cs)
  {
    if c != cs[0] {
      InFlattened(cs[1..], c, l);
    }
  }

  lemma {:induction false} OutsideItems(p: Pick, cs: seq<seq<Line>>, items: seq<ParsedItem>)
    requires AreChunks(AtItem, cs)
    requires forall c, l :: c in cs && l in c ==> (InRanges(items, l.at) <==> Picks(p, c))
    ensures Outside(items, Flatten(cs)) == Flatten(Kept(p, cs))
  {
    hide Key, InRanges, Picks;
    if cs != [] {
      var c, rest := cs[0], cs[1..];
      assert c in cs;
      OutsideItems(p, rest, items);
      OutsideAppend(items, c, Flatten(rest));
      OutsideSame(items, c, Picks(p, c));
      FlattenAppend(if Picks(p, c) then [] else [c], Kept(p, rest));
      assert Flatten([c]) == c && [] + Kept(p, rest) == Kept(p, rest);
    }
  }

  /** Dropping the numbered ranges of the picked items takes out those items and nothing else. */
  lemma {:induction false} OutsideIsRest(p: Pick, ls: seq<Line>)
    requires Increasing(ls)
    ensures Outside(ParsedItems(Picked(p, Chunks(AtItem, ls))), ls) == Rest(p, ls)
  {
    hide Key, Chunks, Lead, Picked, Kept, InRanges, Picks, Flatten, Outside;
    var lead, cs := Lead(AtItem, ls), Chunks(AtItem, ls);
    var items := ParsedItems(Picked(p, cs));
    ChunksRejoin(AtItem, ls);
    var flat := Flatten(cs);
    assert flat == ls[|lead|..];
    assert Increasing(flat);
    forall l | l in lead ensures InRanges(items, l.at) == false {
      var k :| 0 <= k < |lead| && lead[k] == l;
      forall x | x in flat ensures l.at < x.at {
        var i :| 0 <= i < |flat| && flat[i] == x;
        assert ls[|lead| + i] == x && ls[k] == l;
      }
      BeforeRanges(p, cs, l.at);
    }
    OutsideSame(items, lead, false);
    forall c, l | c in cs && l in c ensures InRanges(items, l.at) <==> Picks(p, c) {
      RangesAreItems(p, cs, c, l);
    }
    OutsideItems(p, cs, items);
    OutsideAppend(items, lead, flat);
  }

  /** The set of line numbers that two nested loops collect. */
  method LineRangeSet(items: seq<ParsedItem>) returns (numbers: set<nat>)
    ensures forall n: nat :: n in numbers <==> InRanges(items, n)
  {
    numbers := {};
    for i := 0 to |items|
      invariant forall n: nat :: n in numbers <==> InRanges(items[..i], n)
    {
      ghost var before := numbers;
      var line := items[i].start;
      while line <= items[i].end
        invariant items[i].start <= line && (line <= items[i].end + 1 || line == items[i].start)
        invariant forall n: nat :: n in numbers <==> n in before || items[i].start <= n < line
        decreases items[i].end + 1 - line
      {
        numbers := numbers + {line};
        line := line + 1;
      }
      assert items[..i + 1] == items[..i] + [items[i]];
    }
    assert items[..|items|] == items;
  }

  method RemoveLines(ls: seq<Line>, numbers: set<nat>, ghost items: seq<ParsedItem>) returns (r: seq<Line>)
    requires forall n: nat :: n in numbers <==> InRanges(items, n)
    ensures r == Outside(items, ls)
  {
    hide InRanges;
    r := [];
    for i := 0 to |ls|
      invariant r + Outside(items, ls[i..]) == Outside(items, ls)
    {
      assert ls[i..][1..] == ls[i + 1..];
      if ls[i].at !in numbers { r := r + [ls[i]]; }
    }
    assert ls[|ls|..] == [];
  }

  /** Find the items to take, and take their numbered lines out. */
  method TakeItems(ls: seq<Line>, p: Pick) returns (taken: seq<ItemKey>, rest: seq<Line>)
    requires Increasing(ls)
    ensures taken == Keys(Picked(p, Chunks(AtItem, ls))) && rest == Rest(p, ls)
  {
    hide Key, Chunks, Picks, Rest, Kept, Picked, Increasing, InRanges, Outside;
    NoPicks(p);
    var items := ParseItems(ls);
    ghost var cs := Chunks(AtItem, ls);
    var chosen: seq<ParsedItem> := [];
    taken := [];
    assert cs[..0] == [];
    for i := 0 to |items|
      invariant AreChunks(AtItem, cs[..i]) && chosen == ParsedItems(Picked(p, cs[..i]))
      invariant taken == Keys(Picked(p, cs[..i]))
    {
      assert cs[i] in cs && cs[..i + 1] == cs[..i] + [cs[i]];
      PickedEnd(p, cs[..i], cs[i]);
      if PicksItem(p, items[i], cs[i]) {
        chosen := chosen + [items[i]];
        taken := taken + [items[i].lines];
      }
    }
    assert cs[..|items|] == cs;
    if |chosen| == 0 {
      assert Rest(p, ls) == ls by { NothingTaken(p, ls); }
      return taken, ls;
    }
    var numbers := LineRangeSet(chosen);
    rest := RemoveLines(ls, numbers, chosen);
    OutsideIsRest(p, ls);
  }

  function PicksItem(p: Pick, item: ParsedItem, ghost c: seq<Line>): (r: bool)
    requires c != [] && item == ParsedOf(c)
    ensures r == Picks(p, c)
  {
    match p
    case HasKey(keys) => item.lines in keys
    case StartsAt(lines) => item.start in lines
  }

  lemma {:induction false} PickedEnd(p: Pick, cs: seq<seq<Line>>, c: seq<Line>)
    requires AreChunks(AtItem, cs) && IsChunk(AtItem, c)
    ensures AreChunks(AtItem, cs + [c])
    ensures Picked(p, cs + [c]) == Picked(p, cs) + (if Picks(p, c) then [c] else [])
  {
    hide Key, Picks, Picked, Kept;
    NoPicks(p);
    if cs == [] {
      assert cs + [c] == [c] + [];
      PickStep(p, c, []);
    } else {
      var d, rest := cs[0], cs[1..];
      assert cs == [d] + rest && cs + [c] == [d] + (rest + [c]);
      PickedEnd(p, rest, c);
      PickStep(p, d, rest);
      PickStep(p, d, rest + [c]);
    }
  }

  lemma {:induction false} NothingTaken(p: Pick, ls: seq<Line>)
    requires Picked(p, Chunks(AtItem, ls)) == []
    ensures Rest(p, ls) == ls
  {
    hide Chunks, Lead, Picked, Kept, Keys;
    KeptOrPicked(p, Chunks(AtItem, ls));
    ChunksRejoin(AtItem, ls);
  }
}
