/**
 Which added changelog items are new, and which only moved or were reworded.
 */
module DiffPairing {
  import opened Basics
  import opened DiffReading

  function AddedItems(cs: seq<Candidate>): (r: seq<ItemRef>)
    ensures |r| == |cs| && forall i :: 0 <= i < |cs| ==> r[i] == cs[i].item
  {
    seq(|cs|, i requires 0 <= i < |cs| => cs[i].item)
  }

  function RemovedItems(rs: seq<Removal>): (r: seq<ItemRef>)
    ensures |r| == |rs| && forall i :: 0 <= i < |rs| ==> r[i] == rs[i].item
  {
    seq(|rs|, i requires 0 <= i < |rs| => rs[i].item)
  }

  function AddedHunks(cs: seq<Candidate>): (r: seq<HunkRef>)
    ensures |r| == |cs| && forall i :: 0 <= i < |cs| ==> r[i] == cs[i].hunk
  {
    seq(|cs|, i requires 0 <= i < |cs| => cs[i].hunk)
  }

  function RemovedHunks(rs: seq<Removal>): (r: seq<HunkRef>)
    ensures |r| == |rs| && forall i :: 0 <= i < |rs| ==> r[i] == rs[i].hunk
  {
    seq(|rs|, i requires 0 <= i < |rs| => rs[i].hunk)
  }

  // ----- counting -----

  function Count(xs: seq<ItemRef>, x: ItemRef): nat {
    if xs == [] then 0 else Count(xs[..|xs| - 1], x) + (if xs[|xs| - 1] == x then 1 else 0)
  }

  /** How often the element at `i` occurred before. */
  function Rank(xs: seq<ItemRef>, i: nat): nat
    requires i < |xs|
  {
    Count(xs[..i], xs[i])
  }

  function Indices(xs: seq<ItemRef>, x: ItemRef): (r: seq<nat>)
    ensures |r| == Count(xs, x)
    ensures forall j :: 0 <= j < |r| ==> r[j] < |xs| && xs[r[j]] == x && Rank(xs, r[j]) == j
  {
    if xs == [] then []
    else
      var n := |xs| - 1;
      var r := Indices(xs[..n], x);
      assert forall j :: 0 <= j < |r| ==> xs[..n][..r[j]] == xs[..r[j]];
      if xs[n] == x then r + [n] else r
  }

  lemma {:induction false} CountStep(xs: seq<ItemRef>, i: nat, x: ItemRef)
    requires i < |xs|
    ensures Count(xs[..i + 1], x) == Count(xs[..i], x) + (if xs[i] == x then 1 else 0)
  {
    assert xs[..i + 1][..i] == xs[..i];
  }

  lemma {:induction false} CountGrows(xs: seq<ItemRef>, i: nat, x: ItemRef)
    requires i <= |xs|
    ensures Count(xs[..i], x) <= Count(xs, x)
    decreases |xs| - i
  {
    if i < |xs| {
      CountStep(xs, i, x);
      CountGrows(xs, i + 1, x);
    } else {
      assert xs[..i] == xs;
    }
  }

  // ----- pairing -----

  /** The first additions of an item, up to the number of its removals, and the other way round. */
  predicate IsPairing(added: seq<ItemRef>, removed: seq<ItemRef>, ap: seq<bool>, rp: seq<bool>) {
    && |ap| == |added| && |rp| == |removed|
    && (forall c :: 0 <= c < |added| ==> ap[c] == (Rank(added, c) < Count(removed, added[c])))
    && (forall r :: 0 <= r < |removed| ==> rp[r] == (Rank(removed, r) < Count(added, removed[r])))
  }

  method GroupRemovals(removed: seq<ItemRef>) returns (byItem: map<ItemRef, seq<nat>>)
    ensures forall x :: x in byItem <==> Count(removed, x) > 0
    ensures forall x :: x in byItem ==> byItem[x] == Indices(removed, x)
  {
    byItem := map[];
    for i := 0 to |removed|
      invariant forall x :: x in byItem <==> Count(removed[..i], x) > 0
      invariant forall x :: x in byItem ==> byItem[x] == Indices(removed[..i], x)
    {
      var key := removed[i];
      IndicesStep(removed, i);
      if key in byItem {
        byItem := byItem[key := byItem[key] + [i]];
      } else {
        IndicesNone(removed[..i], key);
        byItem := byItem[key := [i]];
      }
    }
    assert removed[..|removed|] == removed;
  }

  lemma {:induction false} IndicesStep(xs: seq<ItemRef>, i: nat)
    requires i < |xs|
    ensures forall x :: Indices(xs[..i + 1], x) == Indices(xs[..i], x) + (if xs[i] == x then [i] else [])
    ensures forall x :: Count(xs[..i + 1], x) == Count(xs[..i], x) + (if xs[i] == x then 1 else 0)
  {
    assert xs[..i + 1][..i] == xs[..i] && xs[..i + 1][i] == xs[i];
  }

  lemma {:induction false} IndicesNone(xs: seq<ItemRef>, x: ItemRef)
    requires Count(xs, x) == 0
    ensures Indices(xs, x) == []
  {
  }

  /** Each addition in turn takes the first removal of the same item that is still free. */
  method PairUp(added: seq<ItemRef>, removed: seq<ItemRef>) returns (ap: array<bool>, rp: array<bool>)
    ensures fresh(ap) && fresh(rp) && IsPairing(added, removed, ap[..], rp[..])
  {
    hide Count, Indices;
    ap := new bool[|added|](_ => false);
    rp := new bool[|removed|](_ => false);
    var byItem := GroupRemovals(removed);
    NothingCounted(removed, added);
    for i := 0 to |added|
      invariant forall c :: 0 <= c < i ==> ap[c] == (Rank(added, c) < Count(removed, added[c]))
      invariant forall c :: i <= c < |added| ==> !ap[c]
      invariant forall r :: 0 <= r < |removed| ==> rp[r] == (Rank(removed, r) < Count(added[..i], removed[r]))
    {
      var key := added[i];
      ghost var taken := Count(added[..i], key);
      forall r | 0 <= r < |removed|
        ensures Count(added[..i + 1], removed[r]) == Count(added[..i], removed[r]) + if key == removed[r] then 1 else 0
      {
        CountStep(added, i, removed[r]);
      }
      if key in byItem {
        var same := byItem[key];
        var j := 0;
        while j < |same| && rp[same[j]]
          invariant 0 <= j <= |same| && j <= taken
        {
          j := j + 1;
        }
        assert j == if taken < |same| then taken else |same|;
        if j < |same| {
          OnlyRank(removed, same[j]);
          rp[same[j]] := true;
          ap[i] := true;
        } else {
          RanksBelow(removed, key);
        }
      } else {
        RanksBelow(removed, key);
      }
    }
    assert added[..|added|] == added;
  }

  lemma {:induction false} NothingCounted(removed: seq<ItemRef>, added: seq<ItemRef>)
    ensures forall r :: 0 <= r < |removed| ==> Count(added[..0], removed[r]) == 0
  {
  }

  /** Two places with the same element have different ranks. */
  lemma {:induction false} OnlyRank(xs: seq<ItemRef>, i: nat)
    requires i < |xs|
    ensures forall j :: 0 <= j < |xs| && j != i && xs[j] == xs[i] ==> Rank(xs, j) != Rank(xs, i)
  {
    hide Count;
    forall j | 0 <= j < |xs| && j != i && xs[j] == xs[i] ensures Rank(xs, j) != Rank(xs, i) {
      var a, b := if j < i then j else i, if j < i then i else j;
      CountStep(xs, a, xs[i]);
      CountGrows(xs[..b], a + 1, xs[i]);
      assert xs[..b][..a + 1] == xs[..a + 1];
    }
  }

  lemma {:induction false} RanksBelow(xs: seq<ItemRef>, x: ItemRef)
    ensures forall j :: 0 <= j < |xs| && xs[j] == x ==> Rank(xs, j) < Count(xs, x)
  {
    hide Count;
    forall j | 0 <= j < |xs| && xs[j] == x ensures Rank(xs, j) < Count(xs, x) {
      CountStep(xs, j, x);
      CountGrows(xs, j + 1, x);
    }
  }

  function Paired(xs: seq<ItemRef>, flags: seq<bool>, x: ItemRef): nat
    requires |xs| == |flags|
  {
    if xs == [] then 0
    else Paired(xs[..|xs| - 1], flags[..|xs| - 1], x) + (if xs[|xs| - 1] == x && flags[|xs| - 1] then 1 else 0)
  }

  lemma {:induction false} PairedCount(xs: seq<ItemRef>, flags: seq<bool>, x: ItemRef, limit: nat)
    requires |xs| == |flags| && forall i :: 0 <= i < |xs| && xs[i] == x ==> flags[i] == (Rank(xs, i) < limit)
    ensures Paired(xs, flags, x) == Min(Count(xs, x), limit)
  {
    if xs != [] {
      var n := |xs| - 1;
      assert forall i :: 0 <= i < n ==> xs[..n][..i] == xs[..i];
      PairedCount(xs[..n], flags[..n], x, limit);
    }
  }

  /** Of every item, as many additions as removals are paired: the smaller of the two numbers. */
  lemma {:induction false} PairsAreMinimum(added: seq<ItemRef>, removed: seq<ItemRef>, ap: seq<bool>, rp: seq<bool>,
    x: ItemRef)
    requires IsPairing(added, removed, ap, rp)
    ensures Paired(added, ap, x) == Paired(removed, rp, x) == Min(Count(added, x), Count(removed, x))
  {
    PairedCount(added, ap, x, Count(removed, x));
    PairedCount(removed, rp, x, Count(added, x));
  }

  /** The removal that a paired addition used. */
  function Partner(added: seq<ItemRef>, removed: seq<ItemRef>, c: nat): nat
    requires c < |added| && Rank(added, c) < Count(removed, added[c])
  {
    Indices(removed, added[c])[Rank(added, c)]
  }

  /** Partners are removals of the same item, and no removal is used twice. */
  lemma {:induction false} PartnersDiffer(added: seq<ItemRef>, removed: seq<ItemRef>, ap: seq<bool>, rp: seq<bool>)
    requires IsPairing(added, removed, ap, rp)
    ensures forall c :: 0 <= c < |added| && ap[c] ==>
      var r := Partner(added, removed, c);
      r < |removed| && removed[r] == added[c] && rp[r]
    ensures forall c, d :: 0 <= c < d < |added| && ap[c] && ap[d] ==>
      Partner(added, removed, c) != Partner(added, removed, d)
  {
    hide Count, Indices;
    forall c | 0 <= c < |added| && ap[c]
      ensures var r := Partner(added, removed, c); r < |removed| && removed[r] == added[c] && rp[r]
    {
      RanksBelow(added, added[c]);
    }
    forall c, d | 0 <= c < d < |added| && ap[c] && ap[d]
      ensures Partner(added, removed, c) != Partner(added, removed, d)
    {
      if added[c] == added[d] { OnlyRank(added, c); }
    }
  }

  // ----- promoting -----

  function Unpaired(hunks: seq<HunkRef>, paired: seq<bool>, h: HunkRef): nat
    requires |hunks| == |paired|
  {
    if hunks == [] then 0
    else
      var n := |hunks| - 1;
      Unpaired(hunks[..n], paired[..n], h) + (if hunks[n] == h && !paired[n] then 1 else 0)
  }

  /** An addition left over once the unpaired removals of its hunk were each set against an earlier one. */
  predicate IsPromoted(hunks: seq<HunkRef>, paired: seq<bool>, headings: set<HunkRef>, i: nat, removed: nat)
    requires i < |hunks| == |paired|
  {
    !paired[i] && hunks[i] !in headings && Unpaired(hunks[..i], paired[..i], hunks[i]) >= removed
  }

  function PromotedIn(hunks: seq<HunkRef>, paired: seq<bool>, headings: set<HunkRef>, h: HunkRef, removed: nat): nat
    requires |hunks| == |paired|
  {
    if hunks == [] then 0
    else
      var n := |hunks| - 1;
      PromotedIn(hunks[..n], paired[..n], headings, h, removed)
      + (if hunks[n] == h && IsPromoted(hunks, paired, headings, n, removed) then 1 else 0)
  }

  /** In a hunk, what unpaired additions exceed unpaired removals is promoted; nothing next to a new release heading. */
  lemma {:induction false} PromotedIsExcess(hunks: seq<HunkRef>, paired: seq<bool>, headings: set<HunkRef>, h: HunkRef,
    removed: nat)
    requires |hunks| == |paired|
    ensures var all := Unpaired(hunks, paired, h);
      PromotedIn(hunks, paired, headings, h, removed)
        == if h in headings || all < removed then 0 else all - removed
  {
    if hunks != [] {
      PromotedIsExcess(hunks[..|hunks| - 1], paired[..|hunks| - 1], headings, h, removed);
    }
  }

  function CountOf(counts: map<HunkRef, nat>, h: HunkRef): nat { if h in counts then counts[h] else 0 }

  method CountUnpaired(hunks: seq<HunkRef>, paired: seq<bool>) returns (counts: map<HunkRef, nat>)
    requires |hunks| == |paired|
    ensures forall h :: CountOf(counts, h) == Unpaired(hunks, paired, h)
  {
    counts := map[];
    for i := 0 to |hunks|
      invariant forall h :: CountOf(counts, h) == Unpaired(hunks[..i], paired[..i], h)
    {
      assert hunks[..i + 1][..i] == hunks[..i] && paired[..i + 1][..i] == paired[..i];
      if paired[i] { continue; }
      counts := counts[hunks[i] := CountOf(counts, hunks[i]) + 1];
    }
    assert hunks[..|hunks|] == hunks && paired[..|paired|] == paired;
  }

  // ----- the whole pass -----

  /** What the diff leaves to promote: the candidate at `i` is one of them. */
  predicate Promotable(s: Scan, ap: seq<bool>, rp: seq<bool>, i: nat)
    requires i < |s.candidates| == |ap| && |rp| == |s.removals|
  {
    IsPromoted(AddedHunks(s.candidates), ap, s.headings, i,
        Unpaired(RemovedHunks(s.removals), rp, s.candidates[i].hunk))
  }

  /** One of the first `upTo` candidates is promotable and stands on this line of this file. */
  predicate StandsAt(s: Scan, ap: seq<bool>, rp: seq<bool>, p: string, n: nat, upTo: nat)
    requires upTo <= |s.candidates| == |ap| && |rp| == |s.removals|
  {
    exists i ::
      0 <= i < upTo && Promotable(s, ap, rp, i) && s.candidates[i].item.path == p && s.candidates[i].line == n
  }

  /** A line of a file is listed exactly when a promotable addition stands there. */
  ghost predicate ListsPromotable(s: Scan, ap: seq<bool>, rp: seq<bool>, lines: map<string, set<nat>>, upTo: nat)
    requires upTo <= |s.candidates| == |ap| && |rp| == |s.removals|
  {
    forall p: string, n: nat :: (p in lines && n in lines[p]) <==> StandsAt(s, ap, rp, p, n, upTo)
  }

  /** All that was found is paired in the one way there is, and what is then promotable is listed. */
  ghost predicate Lists(s: Scan, lines: map<string, set<nat>>) {
    var added, removed := AddedItems(s.candidates), RemovedItems(s.removals);
    ListsPromotable(s, PairedFlags(added, removed), PairedFlags(removed, added), lines, |s.candidates|)
  }

  lemma {:induction false} StandsStep(s: Scan, ap: seq<bool>, rp: seq<bool>, p: string, n: nat, i: nat)
    requires i < |s.candidates| == |ap| && |rp| == |s.removals|
    ensures var here := Promotable(s, ap, rp, i) && s.candidates[i].item.path == p && s.candidates[i].line == n;
      StandsAt(s, ap, rp, p, n, i + 1) <==> (StandsAt(s, ap, rp, p, n, i) || here)
  {
    hide Promotable;
    if StandsAt(s, ap, rp, p, n, i) {
      var k :| 0 <= k < i && Promotable(s, ap, rp, k) && s.candidates[k].item.path == p && s.candidates[k].line == n;
      assert 0 <= k < i + 1 && Promotable(s, ap, rp, k);
    }
  }

  /** The one pairing there is, on the side of `xs`. */
  function PairedFlags(xs: seq<ItemRef>, others: seq<ItemRef>): (r: seq<bool>)
    ensures |r| == |xs|
  {
    seq(|xs|, i requires 0 <= i < |xs| => Rank(xs, i) < Count(others, xs[i]))
  }

  lemma {:induction false} OnePairing(added: seq<ItemRef>, removed: seq<ItemRef>, ap: seq<bool>, rp: seq<bool>)
    ensures IsPairing(added, removed, ap, rp)
       <==> ap == PairedFlags(added, removed) && rp == PairedFlags(removed, added)
  {
  }

  /** The lines of each file with promotable additions, and no others. */
  method CollectPromotableAddedItemLines(diff: seq<DiffLine>) returns (lines: map<string, set<nat>>)
    ensures exists s :: Finds(diff, |diff|, s) && Lists(s, lines)
  {
    hide Finds, ScanAll, IsPairing, Count, Unpaired, ListsPromotable, Promotable, PairedFlags;
    var s := ScanDiff(diff);
    var added, removed := PairUp(AddedItems(s.candidates), RemovedItems(s.removals));
    ghost var ap, rp := added[..], removed[..];
    OnePairing(AddedItems(s.candidates), RemovedItems(s.removals), ap, rp);
    PairingSizes(AddedItems(s.candidates), RemovedItems(s.removals), ap, rp);
    ghost var hunks := AddedHunks(s.candidates);
    var counts := CountUnpaired(RemovedHunks(s.removals), removed[..]);
    ghost var before := counts;
    lines := map[];
    NothingListed(s, ap, rp);
    NothingSeen(before, hunks, ap, s.headings);
    for i := 0 to |s.candidates|
      invariant ap == added[..] && Tallied(counts, before, hunks, ap, s.headings, i)
      invariant ListsPromotable(s, ap, rp, lines, i)
    {
      var c := s.candidates[i];
      ghost var was := counts;
      WhenPromotable(s, ap, rp, before, i);
      if added[i] || c.hunk in s.headings {
        TallyStep(was, counts, before, hunks, ap, s.headings, i, i + 1);
        ListSkip(s, ap, rp, lines, i, i + 1);
        continue;
      }
      var left := CountOf(counts, c.hunk);
      if left > 0 {
        counts := counts[c.hunk := left - 1];
        TallyStep(was, counts, before, hunks, ap, s.headings, i, i + 1);
        ListSkip(s, ap, rp, lines, i, i + 1);
        continue;
      }
      TallyStep(was, counts, before, hunks, ap, s.headings, i, i + 1);
      ListAdd(s, ap, rp, lines, i, i + 1);
      lines := lines[c.item.path := (if c.item.path in lines then lines[c.item.path] else {}) + {c.line}];
    }
  }

  lemma {:induction false} PairingSizes(added: seq<ItemRef>, removed: seq<ItemRef>, ap: seq<bool>, rp: seq<bool>)
    requires IsPairing(added, removed, ap, rp)
    ensures |ap| == |added| && |rp| == |removed|
  {
  }

  /** Unpaired removals of a hunk not yet set against an addition. */
  ghost function Remaining(counts: map<HunkRef, nat>, hunks: seq<HunkRef>, paired: seq<bool>, headings: set<HunkRef>,
    h: HunkRef, i: nat): nat
    requires i <= |hunks| == |paired|
  {
    var removed, seen := CountOf(counts, h), Unpaired(hunks[..i], paired[..i], h);
    if h in headings then removed else if seen >= removed then 0 else removed - seen
  }

  lemma {:induction false} RemainingStep(counts: map<HunkRef, nat>, hunks: seq<HunkRef>, paired: seq<bool>,
    headings: set<HunkRef>, i: nat, next: nat, h: HunkRef)
    requires i < |hunks| == |paired| && next == i + 1
    ensures var left := Remaining(counts, hunks, paired, headings, h, i);
      Remaining(counts, hunks, paired, headings, h, next)
        == if hunks[i] == h && !paired[i] && h !in headings && left > 0 then left - 1 else left
  {
    assert hunks[..next][..i] == hunks[..i] && paired[..next][..i] == paired[..i];
  }

  ghost predicate Tallied(now: map<HunkRef, nat>, counts: map<HunkRef, nat>, hunks: seq<HunkRef>, paired: seq<bool>,
    headings: set<HunkRef>, i: nat)
    requires i <= |hunks| == |paired|
  {
    forall h :: CountOf(now, h) == Remaining(counts, hunks, paired, headings, h, i)
  }

  lemma {:induction false} NothingSeen(counts: map<HunkRef, nat>, hunks: seq<HunkRef>, paired: seq<bool>,
    headings: set<HunkRef>)
    requires |hunks| == |paired|
    ensures Tallied(counts, counts, hunks, paired, headings, 0)
  {
  }

  lemma {:induction false} TallyStep(was: map<HunkRef, nat>, now: map<HunkRef, nat>, counts: map<HunkRef, nat>,
    hunks: seq<HunkRef>, paired: seq<bool>, headings: set<HunkRef>, i: nat, next: nat)
    requires i < |hunks| == |paired| && next == i + 1 && Tallied(was, counts, hunks, paired, headings, i)
    requires var h := hunks[i]; var left := CountOf(was, h);
      now == if paired[i] || h in headings || left == 0 then was else was[h := left - 1]
    ensures Tallied(now, counts, hunks, paired, headings, next)
  {
    hide Remaining;
    forall h ensures CountOf(now, h) == Remaining(counts, hunks, paired, headings, h, next) {
      RemainingStep(counts, hunks, paired, headings, i, next, h);
    }
  }

  lemma {:induction false} WhenPromotable(s: Scan, ap: seq<bool>, rp: seq<bool>, counts: map<HunkRef, nat>, i: nat)
    requires i < |s.candidates| == |ap| && |rp| == |s.removals|
    requires forall h :: CountOf(counts, h) == Unpaired(RemovedHunks(s.removals), rp, h)
    ensures var h := s.candidates[i].hunk;
      var left := Remaining(counts, AddedHunks(s.candidates), ap, s.headings, h, i);
      Promotable(s, ap, rp, i) <==> (!ap[i] && h !in s.headings && left == 0)
  {
    hide Unpaired;
  }

  lemma {:induction false} NothingListed(s: Scan, ap: seq<bool>, rp: seq<bool>)
    requires |s.candidates| == |ap| && |rp| == |s.removals|
    ensures ListsPromotable(s, ap, rp, map[], 0)
  {
  }

  lemma {:induction false} ListSkip(s: Scan, ap: seq<bool>, rp: seq<bool>, lines: map<string, set<nat>>, i: nat,
    next: nat)
    requires i < |s.candidates| == |ap| && |rp| == |s.removals| && next == i + 1
    requires ListsPromotable(s, ap, rp, lines, i) && !Promotable(s, ap, rp, i)
    ensures ListsPromotable(s, ap, rp, lines, next)
  {
    hide Promotable, StandsAt;
    forall p: string, n: nat ensures (p in lines && n in lines[p]) <==> StandsAt(s, ap, rp, p, n, next) {
      StandsStep(s, ap, rp, p, n, i);
    }
  }

  lemma {:induction false} ListAdd(s: Scan, ap: seq<bool>, rp: seq<bool>, lines: map<string, set<nat>>, i: nat,
    next: nat)
    requires i < |s.candidates| == |ap| && |rp| == |s.removals| && next == i + 1
    requires ListsPromotable(s, ap, rp, lines, i) && Promotable(s, ap, rp, i)
    ensures var c := s.candidates[i]; var p := c.item.path;
      ListsPromotable(s, ap, rp, lines[p := (if p in lines then lines[p] else {}) + {c.line}], next)
  {
    hide Promotable, StandsAt;
    var c := s.candidates[i];
    var now := lines[c.item.path := (if c.item.path in lines then lines[c.item.path] else {}) + {c.line}];
    forall p: string, n: nat ensures (p in now && n in now[p]) <==> StandsAt(s, ap, rp, p, n, next) {
      StandsStep(s, ap, rp, p, n, i);
    }
  }

  // ----- lines listed per hunk -----

  /** The lines of a hunk on which one of the first `n` candidates is promotable. */
  function HunkLines(s: Scan, ap: seq<bool>, rp: seq<bool>, h: HunkRef, n: nat): set<nat>
    requires n <= |s.candidates| == |ap| && |rp| == |s.removals|
  {
    if n == 0 then {}
    else
      HunkLines(s, ap, rp, h, n - 1)
      + (if s.candidates[n - 1].hunk == h && Promotable(s, ap, rp, n - 1) then {s.candidates[n - 1].line} else {})
  }

  lemma {:induction false} InHunkLines(s: Scan, ap: seq<bool>, rp: seq<bool>, h: HunkRef, n: nat, l: nat)
    requires n <= |s.candidates| == |ap| && |rp| == |s.removals|
    ensures l in HunkLines(s, ap, rp, h, n) <==>
      exists i :: 0 <= i < n && s.candidates[i].hunk == h && Promotable(s, ap, rp, i) && s.candidates[i].line == l
  {
    hide Promotable;
    if n != 0 { InHunkLines(s, ap, rp, h, n - 1, l); }
  }

  /** Later candidates of a hunk stand further down. */
  predicate LinesApart(cs: seq<Candidate>) {
    forall i, j :: 0 <= i < j < |cs| && cs[i].hunk == cs[j].hunk ==> cs[i].line < cs[j].line
  }

  lemma {:induction false} HunkLinesCount(s: Scan, ap: seq<bool>, rp: seq<bool>, h: HunkRef, n: nat)
    requires n <= |s.candidates| == |ap| && |rp| == |s.removals| && LinesApart(s.candidates)
    ensures |HunkLines(s, ap, rp, h, n)|
         == PromotedIn(AddedHunks(s.candidates)[..n], ap[..n], s.headings, h, Unpaired(RemovedHunks(s.removals), rp, h))
  {
    hide Unpaired, PromotedIn, IsPromoted, HunkLines, LinesApart;
    var hunks, removed := AddedHunks(s.candidates), Unpaired(RemovedHunks(s.removals), rp, h);
    if n == 0 {
      NonePromoted(s.headings, h, removed);
      assert hunks[..0] == [] && ap[..0] == [];
      NoHunkLines(s, ap, rp, h);
    } else {
      HunkLinesCount(s, ap, rp, h, n - 1);
      PromotedStep(hunks, ap, s.headings, h, removed, n, n - 1);
      HunkLinesStep(s, ap, rp, h, n - 1);
    }
  }

  lemma {:induction false} NoHunkLines(s: Scan, ap: seq<bool>, rp: seq<bool>, h: HunkRef)
    requires |s.candidates| == |ap| && |rp| == |s.removals|
    ensures HunkLines(s, ap, rp, h, 0) == {}
  {
  }

  lemma {:induction false} HunkLinesStep(s: Scan, ap: seq<bool>, rp: seq<bool>, h: HunkRef, n: nat)
    requires n < |s.candidates| == |ap| && |rp| == |s.removals| && LinesApart(s.candidates)
    ensures |HunkLines(s, ap, rp, h, n + 1)|
         == |HunkLines(s, ap, rp, h, n)|
            + (if s.candidates[n].hunk == h
                  && IsPromoted(AddedHunks(s.candidates), ap, s.headings, n, Unpaired(RemovedHunks(s.removals), rp, h))
               then 1 else 0)
  {
    hide IsPromoted, Unpaired, LinesApart;
    if s.candidates[n].hunk == h { LineIsNew(s, ap, rp, n); }
  }

  lemma {:induction false} LineIsNew(s: Scan, ap: seq<bool>, rp: seq<bool>, n: nat)
    requires n < |s.candidates| == |ap| && |rp| == |s.removals| && LinesApart(s.candidates)
    ensures s.candidates[n].line !in HunkLines(s, ap, rp, s.candidates[n].hunk, n)
  {
    hide Promotable, HunkLines;
    InHunkLines(s, ap, rp, s.candidates[n].hunk, n, s.candidates[n].line);
  }

  lemma {:induction false} NonePromoted(headings: set<HunkRef>, h: HunkRef, removed: nat)
    ensures PromotedIn([], [], headings, h, removed) == 0
  {
  }

  lemma {:induction false} PromotedStep(hunks: seq<HunkRef>, paired: seq<bool>, headings: set<HunkRef>, h: HunkRef,
    removed: nat, n: nat, last: nat)
    requires n == last + 1 <= |hunks| == |paired|
    ensures PromotedIn(hunks[..n], paired[..n], headings, h, removed)
      == PromotedIn(hunks[..last], paired[..last], headings, h, removed)
         + (if hunks[last] == h && IsPromoted(hunks, paired, headings, last, removed) then 1 else 0)
  {
    assert hunks[..n][..last] == hunks[..last] && paired[..n][..last] == paired[..last];
  }

  function NamedFiles(diff: seq<DiffLine>): set<string> {
    if diff == [] then {}
    else
      var last := diff[|diff| - 1];
      NamedFiles(diff[..|diff| - 1]) + (if last.NewFile? then {last.path} else {})
  }

  /** No file is named twice. */
  predicate NamesOnce(diff: seq<DiffLine>) {
    diff == [] ||
    var front, last := diff[..|diff| - 1], diff[|diff| - 1];
    NamesOnce(front) && (last.NewFile? ==> last.path !in NamedFiles(front))
  }

  /** Candidates belong to the file named last or to earlier ones; those of the current hunk stand above the current
      line. */
  predicate Ordered(s: Scan, named: set<string>) {
    && LinesApart(s.candidates) && (s.path == "" || s.path in named)
    && (forall c :: c in s.candidates ==> c.item.path == c.hunk.path && c.hunk.path in named && c.hunk.path != "")
    && (forall c :: c in s.candidates && c.hunk.path == s.path ==>
          c.hunk.index <= s.hunk && (c.hunk.index == s.hunk ==> c.line < s.newLine))
  }

  lemma {:induction false} StepOrdered(s: Scan, line: DiffLine, named: set<string>)
    requires Ordered(s, named) && (line.NewFile? ==> line.path !in named)
    ensures Ordered(Step(s, line), named + (if line.NewFile? then {line.path} else {}))
  {
    var t := Step(s, line);
    forall i, j | 0 <= i < j < |t.candidates| && t.candidates[i].hunk == t.candidates[j].hunk
      ensures t.candidates[i].line < t.candidates[j].line
    {
      assert t.candidates[i] == s.candidates[i] && s.candidates[i] in s.candidates;
    }
  }

  lemma {:induction false} ScanOrdered(diff: seq<DiffLine>)
    requires NamesOnce(diff)
    ensures Ordered(ScanAll(diff), NamedFiles(diff))
  {
    hide Step, Ordered;
    if diff == [] {
      StartOrdered();
    } else {
      var front, last := diff[..|diff| - 1], diff[|diff| - 1];
      ScanOrdered(front);
      StepOrdered(ScanAll(front), last, NamedFiles(front));
    }
  }

  lemma {:induction false} StartOrdered()
    ensures Ordered(START, {})
  {
  }

  /**
   In a diff that names each file once, the lines listed for a hunk number the excess of its unpaired additions
   over its unpaired removals, none next to a new release heading.
   */
  lemma {:induction false} ListedIsExcess(diff: seq<DiffLine>, s: Scan, lines: map<string, set<nat>>,
    h: HunkRef)
    requires NamesOnce(diff) && Finds(diff, |diff|, s) && Lists(s, lines)
    ensures var added, removed := AddedItems(s.candidates), RemovedItems(s.removals);
      var ap, rp := PairedFlags(added, removed), PairedFlags(removed, added);
      var listed := HunkLines(s, ap, rp, h, |s.candidates|);
      var more, fewer := Unpaired(AddedHunks(s.candidates), ap, h), Unpaired(RemovedHunks(s.removals), rp, h);
      && (forall l :: l in listed ==> h.path in lines && l in lines[h.path])
      && |listed| == if h in s.headings || more < fewer then 0 else more - fewer
  {
    hide Finds, Unpaired, PromotedIn, ScanAll, Promotable, PairedFlags;
    var added, removed := AddedItems(s.candidates), RemovedItems(s.removals);
    var ap, rp := PairedFlags(added, removed), PairedFlags(removed, added);
    assert diff[..|diff|] == diff;
    ScanFinds(diff, |diff|);
    FindsSame(diff, |diff|, s, ScanAll(diff));
    var n, hunks := |s.candidates|, AddedHunks(s.candidates);
    ScanOrdered(diff);
    HunkLinesCount(s, ap, rp, h, n);
    assert hunks[..n] == hunks && ap[..n] == ap;
    PromotedIsExcess(hunks, ap, s.headings, h, Unpaired(RemovedHunks(s.removals), rp, h));
    forall l | l in HunkLines(s, ap, rp, h, n) ensures h.path in lines && l in lines[h.path] {
      InHunkLines(s, ap, rp, h, n, l);
      var i :| 0 <= i < n && s.candidates[i].hunk == h && Promotable(s, ap, rp, i) && s.candidates[i].line == l;
      assert s.candidates[i] in s.candidates;
      assert StandsAt(s, ap, rp, h.path, l, n);
    }
  }
}
