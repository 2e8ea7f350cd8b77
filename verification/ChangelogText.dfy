/**
 Changelog lines, already classified, and the list items they form.

 A heading keeps its raw text beside its title, a blank line its white space.
 */
module ChangelogText {
  datatype Text =
    | Release(title: string, raw: string)
    | Heading(title: string, raw: string)
    | Blank(space: string)
    | Item(body: string)
    | Prose(body: string)

  const EMPTY_LINE := Blank("")

  /** A line with its number in the file; lines the fixer makes itself have number 0. */
  datatype Line = Line(text: Text, at: nat)

  function Texts(ls: seq<Line>): (r: seq<Text>)
    ensures |r| == |ls| && forall i :: 0 <= i < |ls| ==> r[i] == ls[i].text
  {
    seq(|ls|, i requires 0 <= i < |ls| => ls[i].text)
  }

  function Synthetic(ts: seq<Text>): (r: seq<Line>)
    ensures |r| == |ts| && forall i :: 0 <= i < |ts| ==> r[i] == Line(ts[i], 0)
  {
    seq(|ts|, i requires 0 <= i < |ts| => Line(ts[i], 0))
  }

  // ----- trimming -----

  function TrimFront(ts: seq<Text>): (r: seq<Text>)
    ensures |r| <= |ts| && (r != [] ==> !r[0].Blank?)
  {
    if ts != [] && ts[0].Blank? then TrimFront(ts[1..]) else ts
  }

  function TrimBack(ts: seq<Text>): (r: seq<Text>)
    ensures r <= ts && (r != [] ==> !r[|r| - 1].Blank?)
  {
    if ts != [] && ts[|ts| - 1].Blank? then TrimBack(ts[..|ts| - 1]) else ts
  }

  function Trim(ts: seq<Text>): (r: seq<Text>)
    ensures r != [] ==> !r[0].Blank? && !r[|r| - 1].Blank?
  {
    var f := TrimFront(ts);
    var b := TrimBack(f);
    assert b != [] ==> b[0] == f[0];
    b
  }

  lemma {:induction false} FrontStep(ts: seq<Text>, i: nat)
    requires i <= |ts|
    ensures TrimFront(ts[i..]) == if i < |ts| && ts[i].Blank? then TrimFront(ts[i + 1..]) else ts[i..]
  {
    assert i < |ts| ==> ts[i..][1..] == ts[i + 1..];
  }

  lemma {:induction false} BackStep(ts: seq<Text>, start: nat, end: nat)
    requires start <= end <= |ts|
    ensures TrimBack(ts[start..end])
         == if end > start && ts[end - 1].Blank? then TrimBack(ts[start..end - 1]) else ts[start..end]
  {
    assert end > start ==> ts[start..end][..end - start - 1] == ts[start..end - 1];
  }

  /** The trimming loop of the source: two cursors closing in. */
  method TrimBlankLines(ts: seq<Text>) returns (r: seq<Text>)
    ensures r == Trim(ts)
  {
    hide TrimFront, TrimBack;
    var start, end := 0, |ts|;
    assert ts[0..] == ts;
    while start < end && ts[start].Blank?
      invariant 0 <= start <= end == |ts| && TrimFront(ts) == TrimFront(ts[start..])
    {
      FrontStep(ts, start);
      start := start + 1;
    }
    FrontStep(ts, start);
    assert ts[start..] == ts[start..end];
    while end > start && ts[end - 1].Blank?
      invariant start <= end <= |ts| && Trim(ts) == TrimBack(ts[start..end])
    {
      BackStep(ts, start, end);
      end := end - 1;
    }
    BackStep(ts, start, end);
    r := ts[start..end];
  }

  predicate AllBlank(ts: seq<Text>) { forall t :: t in ts ==> t.Blank? }

  lemma {:induction false} TrimIsEmpty(ts: seq<Text>)
    ensures Trim(ts) == [] <==> AllBlank(ts)
  {
    if ts != [] && ts[0].Blank? {
      TrimIsEmpty(ts[1..]);
      assert ts == [ts[0]] + ts[1..];
      assert forall t :: t in ts <==> t == ts[0] || t in ts[1..];
    } else if ts != [] {
      TrimBackKeeps(ts, []);
      assert ts[0] in ts;
    }
  }

  /** Text that does not end in a blank line survives trimming at the back. */
  lemma {:induction false} TrimBackKeeps(ts: seq<Text>, blanks: seq<Text>)
    requires AllBlank(blanks)
    ensures TrimBack(ts + blanks) == TrimBack(ts)
    ensures ts != [] && !ts[0].Blank? ==> TrimBack(ts) != []
    decreases |ts| + |blanks|
  {
    if blanks != [] {
      var shorter := blanks[..|blanks| - 1];
      assert (ts + blanks)[..|ts + blanks| - 1] == ts + shorter;
      assert (ts + blanks)[|ts + blanks| - 1] in blanks;
      TrimBackKeeps(ts, shorter);
    } else {
      assert ts + [] == ts;
      if ts != [] && ts[|ts| - 1].Blank? {
        TrimBackKeeps(ts[..|ts| - 1], []);
        assert ts[..|ts| - 1] + [] == ts[..|ts| - 1];
      }
    }
  }

  lemma {:induction false} TrimFrontKeeps(blanks: seq<Text>, ts: seq<Text>)
    requires AllBlank(blanks)
    ensures TrimFront(blanks + ts) == TrimFront(ts)
  {
    if blanks == [] {
      assert blanks + ts == ts;
    } else {
      assert (blanks + ts)[1..] == blanks[1..] + ts;
      TrimFrontKeeps(blanks[1..], ts);
    }
  }

  /** A text whose ends are not blank, however many blank lines surround it. */
  lemma {:induction false} TrimBetween(front: seq<Text>, ts: seq<Text>, back: seq<Text>)
    requires AllBlank(front) && AllBlank(back)
    requires ts != [] ==> !ts[0].Blank? && !ts[|ts| - 1].Blank?
    ensures Trim(front + ts + back) == ts
  {
    assert front + ts + back == front + (ts + back);
    TrimFrontKeeps(front, ts + back);
    if ts == [] {
      assert ts + back == back + [];
      TrimFrontKeeps(back, []);
    } else {
      TrimBackKeeps(ts, back);
    }
  }

  lemma {:induction false} TrimTwice(ts: seq<Text>)
    ensures Trim(Trim(ts)) == Trim(ts)
  {
    TrimBetween([], Trim(ts), []);
    assert [] + Trim(ts) + [] == Trim(ts);
  }

  /** Whatever is trimmed away is blank. */
  lemma {:induction false} TrimCuts(ts: seq<Text>) returns (front: seq<Text>, back: seq<Text>)
    ensures ts == front + Trim(ts) + back && AllBlank(front) && AllBlank(back)
  {
    front := TrimFrontCuts(ts);
    back := TrimBackCuts(TrimFront(ts));
    assert ts == front + (Trim(ts) + back);
  }

  lemma {:induction false} TrimFrontCuts(ts: seq<Text>) returns (front: seq<Text>)
    ensures ts == front + TrimFront(ts) && AllBlank(front)
  {
    front := [];
    if ts != [] && ts[0].Blank? {
      var rest := TrimFrontCuts(ts[1..]);
      front := [ts[0]] + rest;
      assert ts == [ts[0]] + ts[1..];
    }
  }

  lemma {:induction false} TrimBackCuts(ts: seq<Text>) returns (back: seq<Text>)
    ensures ts == TrimBack(ts) + back && AllBlank(back)
  {
    back := [];
    if ts != [] && ts[|ts| - 1].Blank? {
      var rest := TrimBackCuts(ts[..|ts| - 1]);
      back := rest + [ts[|ts| - 1]];
      assert ts == ts[..|ts| - 1] + [ts[|ts| - 1]];
    }
  }

  // ----- splitting -----

  /** What a piece of the file starts with, at each of the three levels. */
  datatype Mark = AtRelease | AtHeading | AtItem

  predicate Is(m: Mark, t: Text) {
    match m
    case AtRelease => t.Release?
    case AtHeading => t.Heading?
    case AtItem => t.Item?
  }

  predicate Free(m: Mark, ls: seq<Line>) { forall l :: l in ls ==> !Is(m, l.text) }

  /** The lines before the first mark. */
  function Lead(m: Mark, ls: seq<Line>): (r: seq<Line>)
    ensures Free(m, r) && r <= ls
  {
    if ls == [] || Is(m, ls[0].text) then [] else [ls[0]] + Lead(m, ls[1..])
  }

  /** A marked line and all that follows up to the next mark. */
  predicate IsChunk(m: Mark, c: seq<Line>) {
    c != [] && Is(m, c[0].text) && Free(m, c[1..])
  }

  predicate AreChunks(m: Mark, cs: seq<seq<Line>>) { forall c :: c in cs ==> IsChunk(m, c) }

  function Chunks(m: Mark, ls: seq<Line>): (r: seq<seq<Line>>)
    ensures AreChunks(m, r)
  {
    if ls == [] then []
    else if Is(m, ls[0].text) then
      var c := [ls[0]] + Lead(m, ls[1..]);
      assert c[1..] == Lead(m, ls[1..]);
      [c] + Chunks(m, ls[1..])
    else Chunks(m, ls[1..])
  }

  function Flatten<T>(cs: seq<seq<T>>): seq<T> {
    if cs == [] then [] else cs[0] + Flatten(cs[1..])
  }

  lemma {:induction false} FlattenAppend<T>(a: seq<seq<T>>, b: seq<seq<T>>)
    ensures Flatten(a + b) == Flatten(a) + Flatten(b)
  {
    if a == [] {
      assert a + b == b;
    } else {
      assert (a + b)[1..] == a[1..] + b;
      FlattenAppend(a[1..], b);
    }
  }

  /** How one more line in front changes lead and chunks. */
  lemma {:induction false} ChunksStep(m: Mark, l: Line, rest: seq<Line>)
    ensures Lead(m, [l] + rest) == if Is(m, l.text) then [] else [l] + Lead(m, rest)
    ensures Chunks(m, [l] + rest)
         == (if Is(m, l.text) then [[l] + Lead(m, rest)] + Chunks(m, rest) else Chunks(m, rest))
  {
    assert ([l] + rest)[1..] == rest;
  }

  lemma {:induction false} NoChunks(m: Mark)
    ensures Lead(m, []) == [] && Chunks(m, []) == []
  {
  }

  lemma {:induction false} FlattenCons<T>(c: seq<T>, cs: seq<seq<T>>)
    ensures Flatten([c] + cs) == c + Flatten(cs) && Flatten<T>([]) == []
  {
    assert ([c] + cs)[1..] == cs;
  }

  /** Lines are their lead and their chunks, and nothing else. */
  lemma {:induction false} ChunksRejoin(m: Mark, ls: seq<Line>)
    ensures ls == Lead(m, ls) + Flatten(Chunks(m, ls))
  {
    hide Chunks, Lead, Flatten;
    NoChunks(m);
    if ls == [] {
      FlattenCons<Line>([], []);
    } else {
      var l, rest := ls[0], ls[1..];
      assert ls == [l] + rest;
      ChunksRejoin(m, rest);
      ChunksStep(m, l, rest);
      FlattenCons([l] + Lead(m, rest), Chunks(m, rest));
    }
  }

  /** Lines without marks in front only lengthen the lead. */
  lemma {:induction false} ChunksAfter(m: Mark, front: seq<Line>, ls: seq<Line>)
    requires Free(m, front)
    ensures Lead(m, front + ls) == front + Lead(m, ls) && Chunks(m, front + ls) == Chunks(m, ls)
  {
    if front == [] {
      assert front + ls == ls;
    } else {
      assert (front + ls)[1..] == front[1..] + ls && front[0] in front;
      ChunksAfter(m, front[1..], ls);
    }
  }

  lemma {:induction false} OneChunk(m: Mark, c: seq<Line>, rest: seq<Line>)
    requires IsChunk(m, c) && Lead(m, rest) == []
    ensures Lead(m, c + rest) == [] && Chunks(m, c + rest) == [c] + Chunks(m, rest)
  {
    ChunksAfter(m, c[1..], rest);
    assert (c + rest)[0] == c[0] && (c + rest)[1..] == c[1..] + rest;
    assert [c[0]] + (c[1..] + []) == c;
  }

  /** Any lead and chunks are what is found in their lines. */
  lemma {:induction false} ChunksOf(m: Mark, lead: seq<Line>, cs: seq<seq<Line>>)
    requires Free(m, lead) && AreChunks(m, cs)
    ensures Lead(m, lead + Flatten(cs)) == lead && Chunks(m, lead + Flatten(cs)) == cs
  {
    ChunksAfter(m, lead, Flatten(cs));
    FlattenChunks(m, cs);
    assert lead + [] == lead;
  }

  lemma {:induction false} FlattenChunks(m: Mark, cs: seq<seq<Line>>)
    requires AreChunks(m, cs)
    ensures Lead(m, Flatten(cs)) == [] && Chunks(m, Flatten(cs)) == cs
  {
    if cs != [] {
      assert cs[0] in cs;
      FlattenChunks(m, cs[1..]);
      OneChunk(m, cs[0], Flatten(cs[1..]));
    }
  }

  /** A loop that has walked from one mark to the next has one chunk in hand. */
  lemma {:induction false} TakeChunk(m: Mark, ls: seq<Line>, start: nat, end: nat)
    requires start < end <= |ls| && Is(m, ls[start].text)
    requires forall i :: start < i < end ==> !Is(m, ls[i].text)
    requires end < |ls| ==> Is(m, ls[end].text)
    ensures IsChunk(m, ls[start..end])
    ensures Chunks(m, ls[start..]) == [ls[start..end]] + Chunks(m, ls[end..])
  {
    hide Chunks;
    var c := ls[start..end];
    assert forall l :: l in c[1..] ==> exists i :: start < i < end && ls[i] == l;
    assert ls[start..] == c + ls[end..];
    assert Lead(m, ls[end..]) == [];
    OneChunk(m, c, ls[end..]);
  }

  predicate SameTexts(cs: seq<seq<Line>>, ds: seq<seq<Line>>) {
    |cs| == |ds| && forall i :: 0 <= i < |cs| ==> Texts(cs[i]) == Texts(ds[i])
  }

  /** The same texts split in the same places, whatever their line numbers. */
  lemma {:induction false} SplitsByText(m: Mark, a: seq<Line>, b: seq<Line>)
    requires Texts(a) == Texts(b)
    ensures Texts(Lead(m, a)) == Texts(Lead(m, b)) && SameTexts(Chunks(m, a), Chunks(m, b))
  {
    hide Chunks, Lead;
    NoChunks(m);
    if a == [] {
      assert b == [] by { assert |Texts(a)| == |Texts(b)|; }
    } else {
      var l, k, ls, ks := a[0], b[0], a[1..], b[1..];
      assert a == [l] + ls && b == [k] + ks;
      assert l.text == Texts(a)[0] == Texts(b)[0] == k.text;
      assert Texts(ls) == Texts(a)[1..] == Texts(b)[1..] == Texts(ks);
      SplitsByText(m, ls, ks);
      ChunksStep(m, l, ls);
      ChunksStep(m, k, ks);
      SameWithFirst(l, Lead(m, ls), Chunks(m, ls), k, Lead(m, ks), Chunks(m, ks));
    }
  }

  lemma {:induction false} SameWithFirst(l: Line, x: seq<Line>, cs: seq<seq<Line>>, k: Line, y: seq<Line>,
    ds: seq<seq<Line>>)
    requires l.text == k.text && Texts(x) == Texts(y) && SameTexts(cs, ds)
    ensures Texts([l] + x) == Texts([k] + y) && SameTexts([[l] + x] + cs, [[k] + y] + ds)
  {
    assert Texts([l] + x) == [l.text] + Texts(x) == [k.text] + Texts(y) == Texts([k] + y);
  }

  // ----- items -----

  /** An item's key: its lines without the blank ones around them. */
  function Key(c: seq<Line>): seq<Text> { Trim(Texts(c)) }

  function Keys(cs: seq<seq<Line>>): (r: seq<seq<Text>>)
    ensures |r| == |cs| && forall i :: 0 <= i < |cs| ==> r[i] == Key(cs[i])
  {
    seq(|cs|, i requires 0 <= i < |cs| => Key(cs[i]))
  }

  function ItemKeys(ls: seq<Line>): seq<seq<Text>> { Keys(Chunks(AtItem, ls)) }

  datatype ParsedItem = ParsedItem(start: nat, end: nat, lines: seq<Text>)

  function ParsedOf(c: seq<Line>): ParsedItem
    requires c != []
  {
    ParsedItem(c[0].at, c[|c| - 1].at, Key(c))
  }

  function ParsedItems(cs: seq<seq<Line>>): (r: seq<ParsedItem>)
    requires AreChunks(AtItem, cs)
    ensures |r| == |cs| && forall i :: 0 <= i < |cs| ==> cs[i] in cs && r[i] == ParsedOf(cs[i])
  {
    seq(|cs|, i requires 0 <= i < |cs| => assert cs[i] in cs; ParsedOf(cs[i]))
  }

  /** The index loop that finds the items. */
  method ParseItems(ls: seq<Line>) returns (items: seq<ParsedItem>)
    ensures items == ParsedItems(Chunks(AtItem, ls))
  {
    items := [];
    ghost var found: seq<seq<Line>> := [];
    var index := 0;
    while index < |ls|
      invariant 0 <= index <= |ls|
      invariant AreChunks(AtItem, found) && items == ParsedItems(found)
      invariant Chunks(AtItem, ls) == found + Chunks(AtItem, ls[index..])
      decreases |ls| - index
    {
      assert ls[index..][1..] == ls[index + 1..];
      if !ls[index].text.Item? {
        index := index + 1;
      } else {
        hide Chunks, Lead, Trim;
        var start := index;
        index := index + 1;
        while index < |ls| && !ls[index].text.Item?
          invariant start < index <= |ls| && forall i :: start < i < index ==> !Is(AtItem, ls[i].text)
        {
          index := index + 1;
        }
        var c := ls[start..index];
        TakeChunk(AtItem, ls, start, index);
        var trimmed := TrimBlankLines(Texts(c));
        items := items + [ParsedItem(c[0].at, c[|c| - 1].at, trimmed)];
        found := found + [c];
      }
    }
    assert ls[index..] == [] && found + [] == found;
  }
}
