/**
 Joining the lines of two subsections, and closing the gaps between items: which items come out.
 */
module ChangelogMerge {
  import opened ChangelogText
  import opened ChangelogItems

  // ----- items depend on texts, and not on blank lines at the edges -----

  /** The items of `a + b`: the lead of `b` falls to the last item of `a`. */
  lemma {:induction false} ItemsConcat(a: seq<Line>, b: seq<Line>)
    ensures Lead(AtItem, a + b) == if HasItems(a) then Lead(AtItem, a) else a + Lead(AtItem, b)
    ensures var cs := Chunks(AtItem, a); var n := |cs| - 1;
      Chunks(AtItem, a + b) == if cs == [] then Chunks(AtItem, b)
                               else cs[..n] + [cs[n] + Lead(AtItem, b)] + Chunks(AtItem, b)
  {
    hide Chunks, Lead;
    NoItemLines();
    if a == [] {
      assert a + b == b && a + Lead(AtItem, b) == Lead(AtItem, b);
    } else {
      var l, rest := a[0], a[1..];
      ItemsConcat(rest, b);
      assert a + b == [l] + (rest + b) && a == [l] + rest;
      ChunksStep(AtItem, l, rest);
      ChunksStep(AtItem, l, rest + b);
      var cs := Chunks(AtItem, rest);
      if cs == [] {
        NoItemsIn(rest);
        LastTakesLead(l, rest, Lead(AtItem, b), Chunks(AtItem, b));
      } else if l.text.Item? {
        PushFront([l] + Lead(AtItem, rest), cs, Lead(AtItem, b), Chunks(AtItem, b));
      }
    }
  }

  lemma {:induction false} PushFront(first: seq<Line>, cs: seq<seq<Line>>, lead: seq<Line>, more: seq<seq<Line>>)
    requires cs != []
    ensures var n := |cs| - 1; var all := [first] + cs;
      [first] + (cs[..n] + [cs[n] + lead] + more) == all[..n + 1] + [all[n + 1] + lead] + more
  {
  }

  lemma {:induction false} NoItemsIn(ls: seq<Line>)
    requires Chunks(AtItem, ls) == []
    ensures Lead(AtItem, ls) == ls
  {
    hide Chunks, Lead;
    ChunksRejoin(AtItem, ls);
    NoItemLines();
    assert ls == Lead(AtItem, ls) + [];
  }

  lemma {:induction false} LastTakesLead(l: Line, rest: seq<Line>, lead: seq<Line>, more: seq<seq<Line>>)
    ensures [[l] + (rest + lead)] + more == ([[l] + rest] + [])[..0] + [([[l] + rest] + [])[0] + lead] + more
    ensures [l] + (rest + lead) == [l] + rest + lead
  {
    assert [l] + (rest + lead) == [l] + rest + lead;
  }

  lemma {:induction false} NoItemLines()
    ensures Lead(AtItem, []) == [] && Chunks(AtItem, []) == [] && Flatten<Line>([]) == []
  {
  }

  lemma {:induction false} ItemsByText(a: seq<Line>, b: seq<Line>)
    requires Texts(a) == Texts(b)
    ensures ItemKeys(a) == ItemKeys(b) && (HasItems(a) <==> HasItems(b)) && (StartsClean(a) <==> StartsClean(b))
  {
    hide Chunks, Lead, Trim;
    SplitsByText(AtItem, a, b);
  }

  lemma {:induction false} BlanksOnly(ls: seq<Line>)
    requires AllBlank(Texts(ls))
    ensures Lead(AtItem, ls) == ls && Chunks(AtItem, ls) == []
  {
    hide Chunks;
    NoItemLines();
    assert forall i :: 0 <= i < |ls| ==> Texts(ls)[i] in Texts(ls);
    ChunksAfter(AtItem, ls, []);
    assert ls + [] == ls;
  }

  lemma {:induction false} KeyThenBlanks(c: seq<Line>, blanks: seq<Line>)
    requires AllBlank(Texts(blanks))
    ensures Key(c + blanks) == Key(c)
  {
    hide Trim;
    var front, back := TrimCuts(Texts(c));
    assert Texts(c + blanks) == front + Key(c) + (back + Texts(blanks));
    TrimBetween(front, Key(c), back + Texts(blanks));
  }

  lemma {:induction false} BlanksBefore(front: seq<Line>, ls: seq<Line>)
    requires AllBlank(Texts(front))
    ensures ItemKeys(front + ls) == ItemKeys(ls) && (HasItems(front + ls) <==> HasItems(ls))
    ensures StartsClean(front + ls) <==> StartsClean(ls)
  {
    hide Chunks, Lead, Key, AllBlank;
    BlanksOnly(front);
    ItemsConcat(front, ls);
    var lead := Lead(AtItem, ls);
    BlankEnds(Texts(front), Texts(lead), []);
    assert Texts(front + lead) == Texts(front) + Texts(lead) + [];
  }

  lemma {:induction false} BlanksAfter(ls: seq<Line>, back: seq<Line>)
    requires AllBlank(Texts(back))
    ensures ItemKeys(ls + back) == ItemKeys(ls) && (HasItems(ls + back) <==> HasItems(ls))
    ensures StartsClean(ls + back) <==> StartsClean(ls)
  {
    hide Chunks, Lead, Key, AllBlank;
    BlanksOnly(back);
    ItemsConcat(ls, back);
    var cs := Chunks(AtItem, ls);
    if cs == [] {
      NoItemsIn(ls);
      NoneBlank();
      BlankEnds([], Texts(ls), Texts(back));
      assert Texts(ls + back) == [] + Texts(ls) + Texts(back);
    } else {
      KeyThenBlanks(cs[|cs| - 1], back);
      LastReplaced(cs, cs[|cs| - 1] + back, []);
      assert Keys(cs) + Keys([]) == Keys(cs);
    }
  }

  lemma {:induction false} NoneBlank()
    ensures AllBlank([])
  {
  }

  lemma {:induction false} BlankEnds(front: seq<Text>, ts: seq<Text>, back: seq<Text>)
    requires AllBlank(front) && (back == [] || AllBlank(back))
    ensures AllBlank(front + ts + back) <==> AllBlank(ts)
  {
    if AllBlank(front + ts + back) {
      forall t | t in ts ensures t.Blank? {
        assert t in front + ts + back;
      }
    }
  }

  /** Trimmed lines have the items of the untrimmed. */
  lemma {:induction false} TrimmedItems(ls: seq<Line>)
    ensures var t := Synthetic(Trim(Texts(ls)));
      ItemKeys(t) == ItemKeys(ls) && (HasItems(t) <==> HasItems(ls)) && (StartsClean(t) <==> StartsClean(ls))
  {
    hide ItemKeys, HasItems, StartsClean, Trim;
    var front, back := TrimCuts(Texts(ls));
    var t := Synthetic(Trim(Texts(ls)));
    var spread := Synthetic(front) + t + Synthetic(back);
    assert Texts(spread) == Texts(ls) && Texts(Synthetic(front)) == front && Texts(Synthetic(back)) == back;
    ItemsByText(spread, ls);
    BlanksAfter(Synthetic(front) + t, Synthetic(back));
    BlanksBefore(Synthetic(front), t);
  }

  // ----- appending -----

  function Separator(existing: seq<Text>, source: seq<Text>): (r: seq<Text>)
    requires existing != [] && source != []
    ensures AllBlank(r)
  {
    if existing[|existing| - 1].Item? && source[0].Item? then [] else [EMPTY_LINE]
  }

  /** The lines of a subsection after more lines were appended to it. */
  function Appended(lines: seq<Line>, source: seq<Text>): seq<Line> {
    var more, existing := Trim(source), Trim(Texts(lines));
    if more == [] then lines
    else if existing == [] then Synthetic(more)
    else Synthetic(existing + Separator(existing, more) + more)
  }

  /** Both parts are there as trimmed; an item follows an item directly, and all else stands behind one empty line. */
  lemma {:induction false} AppendedLayout(lines: seq<Line>, source: seq<Text>)
    requires Trim(source) != [] && Trim(Texts(lines)) != []
    ensures var r, first, second := Texts(Appended(lines, source)), Trim(Texts(lines)), Trim(source);
      if first[|first| - 1].Item? && second[0].Item? then r == first + second
      else r == first + [EMPTY_LINE] + second
  {
    hide Trim;
    assert Trim(Texts(lines)) + [] == Trim(Texts(lines));
  }

  method AppendSubsectionLines(lines: seq<Line>, source: seq<Text>) returns (r: seq<Line>)
    ensures r == Appended(lines, source)
  {
    var trimmedSource := TrimBlankLines(source);
    if |trimmedSource| == 0 { return lines; }
    var existing := TrimBlankLines(Texts(lines));
    if |existing| == 0 { return Synthetic(trimmedSource); }
    var lastExisting, firstSource := existing[|existing| - 1], trimmedSource[0];
    var separator := if lastExisting.Item? && firstSource.Item? then [] else [EMPTY_LINE];
    r := Synthetic(existing + separator + trimmedSource);
  }

  /** Whether the appended lines only add items, or also lengthen the last one that was there. */
  predicate JoinsCleanly(lines: seq<Line>, source: seq<Text>) {
    HasItems(lines) ==> StartsClean(Synthetic(source))
  }

  lemma {:induction false} CleanTrimmed(more: seq<Text>)
    requires more != [] && Trim(more) == more
    ensures StartsClean(Synthetic(more)) <==> more[0].Item?
  {
    hide TrimFront, TrimBack;
    assert !more[0].Blank?;
    var ls := Synthetic(more);
    assert ls[0].text == more[0] && Texts(ls) == more;
    if !more[0].Item? {
      assert Lead(AtItem, ls) == [ls[0]] + Lead(AtItem, ls[1..]);
      assert Texts(Lead(AtItem, ls))[0] == more[0];
    }
  }

  /** Every item survives an append that joins cleanly; any other lengthens the last item. */
  lemma {:induction false} AppendedItems(lines: seq<Line>, source: seq<Text>)
    ensures Joined(JoinsCleanly(lines, source),
                   ItemKeys(lines), ItemKeys(Synthetic(source)), ItemKeys(Appended(lines, source)))
    ensures HasItems(Appended(lines, source)) <==> HasItems(lines) || HasItems(Synthetic(source))
    ensures StartsClean(lines) && StartsClean(Synthetic(source)) ==> StartsClean(Appended(lines, source))
  {
    hide ItemKeys, HasItems, StartsClean, Trim;
    var more, existing := Trim(source), Trim(Texts(lines));
    assert Texts(Synthetic(source)) == source;
    TrimmedItems(lines);
    TrimmedItems(Synthetic(source));
    TrimIsEmpty(source);
    TrimIsEmpty(Texts(lines));
    if more == [] {
      BlankItems(Synthetic(source));
    } else if existing == [] {
      BlankItems(lines);
    } else {
      TrimTwice(source);
      CleanTrimmed(more);
      TrimTwice(Texts(lines));
      FirstLine(more);
      FirstLine(existing);
      var a, sep, b := Synthetic(existing), Synthetic(Separator(existing, more)), Synthetic(more);
      assert Appended(lines, source) == a + (sep + b);
      assert Texts(sep) == Separator(existing, more);
      JoinedItems(a, sep, b);
      ItemsConcat(a, sep + b);
      CleanAfter(a, sep, b);
    }
  }

  lemma {:induction false} FirstLine(ts: seq<Text>)
    requires ts != [] && Trim(ts) == ts
    ensures !ts[0].Blank?
  {
    hide TrimFront, TrimBack;
  }

  lemma {:induction false} BlankItems(ls: seq<Line>)
    requires AllBlank(Texts(ls))
    ensures ItemKeys(ls) == [] && !HasItems(ls) && StartsClean(ls)
  {
    hide Chunks, Lead;
    BlanksOnly(ls);
  }

  /** The new items, given the old ones and those appended. */
  predicate Joined(clean: bool, was: seq<ItemKey>, more: seq<ItemKey>, now: seq<ItemKey>) {
    if clean then now == was + more
    else was != [] && |now| == |was| + |more| && |now[|was| - 1]| > |was[|was| - 1]|
         && now[..|was| - 1] == was[..|was| - 1] && now[|was|..] == more
  }

  lemma {:induction false} JoinedItems(a: seq<Line>, sep: seq<Line>, b: seq<Line>)
    requires AllBlank(Texts(sep)) && b != [] && !b[0].text.Blank?
    requires !b[0].text.Item? ==> sep != []
    requires StartsClean(b) <==> b[0].text.Item?
    ensures Joined(HasItems(a) ==> StartsClean(b), ItemKeys(a), ItemKeys(b), ItemKeys(a + (sep + b)))
    ensures HasItems(a + (sep + b)) <==> HasItems(a) || HasItems(b)
  {
    hide Chunks, Lead, Key, Trim, StartsClean;
    BlanksOnly(sep);
    ItemsConcat(a, sep + b);
    ItemsConcat(sep, b);
    var cs, ds, lead := Chunks(AtItem, a), Chunks(AtItem, b), Lead(AtItem, b);
    if cs != [] {
      var n := |cs| - 1;
      var last := cs[n] + (sep + lead);
      assert Chunks(AtItem, a + (sep + b)) == cs[..n] + [last] + ds;
      assert cs[n] in cs;
      if b[0].text.Item? {
        NoLead(b);
        assert sep + [] == sep;
        KeyThenBlanks(cs[n], sep);
      } else {
        LongerKey(cs[n], sep, b);
      }
      LastReplaced(cs, last, ds);
    }
  }

  lemma {:induction false} LastReplaced(cs: seq<seq<Line>>, last: seq<Line>, ds: seq<seq<Line>>)
    requires cs != []
    ensures var n := |cs| - 1; var now := Keys(cs[..n] + [last] + ds);
      && |now| == |cs| + |ds| && now[n] == Key(last) && now[..n] == Keys(cs)[..n] && now[n + 1..] == Keys(ds)
      && (Key(last) == Key(cs[n]) ==> now == Keys(cs) + Keys(ds))
  {
    hide Key;
  }

  lemma {:induction false} NoLead(b: seq<Line>)
    requires b != [] && b[0].text.Item?
    ensures Lead(AtItem, b) == []
  {
  }

  lemma {:induction false} CleanAfter(a: seq<Line>, sep: seq<Line>, b: seq<Line>)
    requires AllBlank(Texts(sep)) && a != [] && !a[0].text.Blank?
    requires Lead(AtItem, a + (sep + b)) == if HasItems(a) then Lead(AtItem, a) else a + Lead(AtItem, sep + b)
    ensures StartsClean(a) ==> StartsClean(a + (sep + b))
  {
    hide Chunks;
    if !a[0].text.Item? {
      assert Lead(AtItem, a)[0] == a[0] && Texts(Lead(AtItem, a))[0] in Texts(Lead(AtItem, a));
    }
  }

  /** An item that swallows prose gets longer. */
  lemma {:induction false} LongerKey(c: seq<Line>, sep: seq<Line>, b: seq<Line>)
    requires IsChunk(AtItem, c) && b != [] && !b[0].text.Item? && !b[0].text.Blank?
    requires sep != []
    ensures |Key(c + (sep + Lead(AtItem, b)))| > |Key(c)|
  {
    hide Chunks, TrimBack;
    var lead := Lead(AtItem, b);
    assert lead[0] == b[0];
    var ts, tail := Texts(c), Texts(sep + lead);
    assert Texts(c + (sep + lead)) == ts + tail;
    assert tail[|sep|] == b[0].text;
    assert ts[0] == c[0].text && (ts + tail)[0] == ts[0];
    assert TrimFront(ts) == ts && TrimFront(ts + tail) == ts + tail;
    TrimBackPast(ts + tail, |ts| + |sep|);
  }

  lemma {:induction false} TrimBackPast(ts: seq<Text>, k: nat)
    requires k < |ts| && !ts[k].Blank?
    ensures |TrimBack(ts)| > k
  {
    if ts[|ts| - 1].Blank? {
      TrimBackPast(ts[..|ts| - 1], k);
    }
  }

  // ----- closing the gaps between items -----

  function NonBlank(ts: seq<Text>): seq<Text> {
    if ts == [] then [] else (if ts[0].Blank? then [] else [ts[0]]) + NonBlank(ts[1..])
  }

  /** Blank lines after an item go, but only when nothing else would go with them. */
  function Compacted(ts: seq<Text>): seq<Text> {
    var trimmed := Trim(ts);
    var items := ItemKeys(Synthetic(trimmed));
    if trimmed == [] then []
    else if items == [] then trimmed
    else
      var flat := Flatten(items);
      if NonBlank(trimmed) != NonBlank(flat) then trimmed else flat
  }

  method CompactAdjacentListSpacing(ts: seq<Text>) returns (r: seq<Text>)
    ensures r == Compacted(ts)
  {
    hide Trim, Chunks, Key;
    var trimmed := TrimBlankLines(ts);
    if |trimmed| == 0 { return []; }
    var items := ParseItems(Synthetic(trimmed));
    if |items| == 0 { return trimmed; }
    var flat := [];
    ghost var keys := ItemKeys(Synthetic(trimmed));
    for i := 0 to |items|
      invariant flat == Flatten(keys[..i])
    {
      flat := flat + items[i].lines;
      assert keys[..i + 1] == keys[..i] + [keys[i]];
      FlattenOne(keys[..i], keys[i]);
    }
    assert keys[..|items|] == keys;
    r := if NonBlank(trimmed) != NonBlank(flat) then trimmed else flat;
  }

  lemma {:induction false} FlattenOne<T>(a: seq<seq<T>>, x: seq<T>)
    ensures Flatten(a + [x]) == Flatten(a) + x
  {
    FlattenAppend(a, [x]);
    assert [x][1..] == [] && Flatten([x]) == x + Flatten<T>([]);
  }

  lemma {:induction false} NonBlankAppend(a: seq<Text>, b: seq<Text>)
    ensures NonBlank(a + b) == NonBlank(a) + NonBlank(b)
  {
    if a == [] {
      assert a + b == b;
    } else {
      assert (a + b)[1..] == a[1..] + b;
      NonBlankAppend(a[1..], b);
    }
  }

  lemma {:induction false} NonBlankOfBlanks(ts: seq<Text>)
    requires AllBlank(ts)
    ensures NonBlank(ts) == []
  {
    if ts != [] {
      NonBlankOfBlanks(ts[1..]);
    }
  }

  lemma {:induction false} NonBlankTrim(ts: seq<Text>)
    ensures NonBlank(Trim(ts)) == NonBlank(ts)
  {
    hide Trim;
    var front, back := TrimCuts(ts);
    NonBlankAppend(front + Trim(ts), back);
    NonBlankAppend(front, Trim(ts));
    NonBlankOfBlanks(front);
    NonBlankOfBlanks(back);
  }

  lemma {:induction false} NonBlankFlat(cs: seq<seq<Line>>)
    ensures NonBlank(Flatten(Keys(cs))) == NonBlank(Texts(Flatten(cs)))
  {
    hide Trim, NonBlank, Flatten, Keys;
    FlattenCons<Line>([], []);
    FlattenCons<Text>([], []);
    if cs == [] {
      NoKeys();
      assert Texts(Flatten(cs)) == [] == Flatten(Keys(cs));
    } else {
      var c, rest := cs[0], cs[1..];
      assert cs == [c] + rest;
      NonBlankFlat(rest);
      KeysCons(c, rest);
      FlattenCons(c, rest);
      FlattenCons(Key(c), Keys(rest));
      assert Texts(c + Flatten(rest)) == Texts(c) + Texts(Flatten(rest));
      NonBlankAppend(Key(c), Flatten(Keys(rest)));
      NonBlankAppend(Texts(c), Texts(Flatten(rest)));
      NonBlankTrim(Texts(c));
    }
  }

  /** The gaps are closed exactly when the lines start with an item. */
  lemma {:induction false} CompactedWhen(ts: seq<Text>)
    requires Trim(ts) == ts && ts != []
    ensures Compacted(ts) == if ts[0].Item? then Flatten(ItemKeys(Synthetic(ts))) else ts
  {
    hide Trim, Chunks, Lead, NonBlank, Key;
    var ls := Synthetic(ts);
    var lead, cs := Lead(AtItem, ls), Chunks(AtItem, ls);
    ChunksRejoin(AtItem, ls);
    assert Texts(ls) == ts && Texts(ls) == Texts(lead) + Texts(Flatten(cs));
    NonBlankAppend(Texts(lead), Texts(Flatten(cs)));
    NonBlankFlat(cs);
    FirstLine(ts);
    if ts[0].Item? {
      NoLead(ls);
      assert lead + Flatten(cs) == Flatten(cs);
      assert cs != [] by { if cs == [] { NoItemLines(); } }
      assert Texts(lead) + Texts(Flatten(cs)) == Texts(Flatten(cs));
    } else {
      LeadStarts(ls);
      NonBlankFirst(Texts(lead));
    }
  }

  lemma {:induction false} LeadStarts(ls: seq<Line>)
    requires ls != [] && !ls[0].text.Item?
    ensures Lead(AtItem, ls) != [] && Lead(AtItem, ls)[0] == ls[0]
  {
  }

  lemma {:induction false} NonBlankFirst(ts: seq<Text>)
    requires ts != [] && !ts[0].Blank?
    ensures NonBlank(ts) != []
  {
  }

  predicate IsKey(k: ItemKey) {
    k != [] && k[0].Item? && (forall t :: t in k[1..] ==> !t.Item?) && !k[|k| - 1].Blank?
  }

  lemma {:induction false} KeyOfChunk(c: seq<Line>)
    requires IsChunk(AtItem, c)
    ensures IsKey(Key(c))
  {
    hide TrimBack;
    var ts := Texts(c);
    assert ts[0] == c[0].text && TrimFront(ts) == ts;
    TrimBackPast(ts, 0);
    var k := Key(c);
    forall t | t in k[1..] ensures !t.Item? {
      var i :| 0 <= i < |k| - 1 && k[1..][i] == t;
      assert ts[i + 1] == c[i + 1].text && c[1..][i] in c[1..];
    }
  }

  lemma {:induction false} KeysFlat(keys: seq<ItemKey>)
    requires forall k :: k in keys ==> IsKey(k)
    ensures ItemKeys(Synthetic(Flatten(keys))) == keys
    ensures Lead(AtItem, Synthetic(Flatten(keys))) == []
    ensures keys != [] ==> Flatten(keys) != [] && Flatten(keys)[0].Item? && !Flatten(keys)[|Flatten(keys)| - 1].Blank?
  {
    hide Chunks, Lead, Key;
    NoItemLines();
    NoKeys();
    if keys == [] {
      assert Synthetic(Flatten(keys)) == [];
    } else {
      var k, rest := keys[0], keys[1..];
      assert k in keys;
      KeysFlat(rest);
      var c, more := Synthetic(k), Synthetic(Flatten(rest));
      assert Synthetic(Flatten(keys)) == c + more;
      assert forall l :: l in c[1..] ==> l.text in k[1..];
      OneChunk(AtItem, c, more);
      KeysCons(c, Chunks(AtItem, more));
      KeyOfKey(k);
      assert [k] + rest == keys;
      assert rest == [] ==> Flatten(keys) == k + [];
    }
  }

  lemma {:induction false} KeyOfKey(k: ItemKey)
    requires IsKey(k)
    ensures Key(Synthetic(k)) == k && Trim(k) == k
  {
    hide Trim;
    assert Texts(Synthetic(k)) == k && [] + k + [] == k;
    TrimBetween([], k, []);
  }

  /** Closing gaps loses no line but blank ones, and no item. */
  lemma {:induction false} CompactedItems(ls: seq<Line>)
    ensures var c := Compacted(Texts(ls)); var now := Synthetic(c);
      && Trim(c) == c && (c == [] <==> AllBlank(Texts(ls))) && NonBlank(c) == NonBlank(Texts(ls))
      && ItemKeys(now) == ItemKeys(ls) && (HasItems(now) <==> HasItems(ls)) && (StartsClean(now) <==> StartsClean(ls))
  {
    hide Trim, ItemKeys, HasItems, StartsClean, NonBlank;
    var ts := Texts(ls);
    var t := Trim(ts);
    TrimTwice(ts);
    TrimIsEmpty(ts);
    TrimmedItems(ls);
    NonBlankTrim(ts);
    SameCompacted(ts);
    if t != [] {
      CompactedWhen(t);
      if t[0].Item? {
        CompactedFlat(t);
      }
    }
  }

  lemma {:induction false} SameCompacted(ts: seq<Text>)
    ensures Compacted(Trim(ts)) == Compacted(ts)
  {
    hide Trim, NonBlank, ItemKeys, Flatten;
    TrimTwice(ts);
  }

  lemma {:induction false} ItemsAreKeys(ls: seq<Line>)
    ensures forall k :: k in ItemKeys(ls) ==> IsKey(k)
  {
    hide Chunks, Key, IsKey;
    var keys, cs := ItemKeys(ls), Chunks(AtItem, ls);
    forall k | k in keys ensures IsKey(k) {
      var i :| 0 <= i < |keys| && keys[i] == k;
      assert cs[i] in cs;
      KeyOfChunk(cs[i]);
    }
  }

  lemma {:induction false} KeysMean(ls: seq<Line>)
    ensures HasItems(ls) <==> ItemKeys(ls) != []
    ensures Lead(AtItem, ls) == [] ==> StartsClean(ls)
  {
    hide Chunks, Key;
  }

  lemma {:induction false} CompactedFlat(t: seq<Text>)
    requires Trim(t) == t && t != [] && t[0].Item?
    ensures var was := Synthetic(t); var c := Flatten(ItemKeys(was)); var now := Synthetic(c);
      && Trim(c) == c && c != [] && NonBlank(c) == NonBlank(t)
      && ItemKeys(now) == ItemKeys(was) && (HasItems(now) <==> HasItems(was)) && StartsClean(now) && StartsClean(was)
  {
    hide Trim, Chunks, Lead, NonBlank, Key, Flatten, IsKey, HasItems, StartsClean, ItemKeys;
    var was := Synthetic(t);
    var keys := ItemKeys(was);
    FlatOf(t);
    ItemsAreKeys(was);
    KeysFlat(keys);
    var c := Flatten(keys);
    assert [] + c + [] == c;
    TrimBetween([], c, []);
    KeysMean(was);
    KeysMean(Synthetic(c));
  }

  lemma {:induction false} FlatOf(t: seq<Text>)
    requires t != [] && t[0].Item?
    ensures var was := Synthetic(t);
      Lead(AtItem, was) == [] && ItemKeys(was) != [] && NonBlank(Flatten(ItemKeys(was))) == NonBlank(t)
  {
    hide Chunks, Lead, NonBlank, Key;
    var was := Synthetic(t);
    var cs := Chunks(AtItem, was);
    NoLead(was);
    ChunksRejoin(AtItem, was);
    NoItemLines();
    assert Texts(was) == t && [] + Flatten(cs) == Flatten(cs);
    NonBlankFlat(cs);
  }
}
