/**
 Fragile tokens of a prompt line, the check that a rewritten line still carries them, and what passing it means.
 */
module PromptTokens {
  predicate StartsWith(s: string, tok: string) { |tok| <= |s| && s[..|tok|] == tok }

  /** Occurrences found one after the other from the left, none overlapping the one before. */
  function Occurrences(s: string, tok: string): nat
    requires tok != ""
  {
    if |s| < |tok| then 0
    else if StartsWith(s, tok) then 1 + Occurrences(s[|tok|..], tok)
    else Occurrences(s[1..], tok)
  }

  function Times(tokens: seq<string>, tok: string): nat {
    if tokens == [] then 0
    else Times(tokens[..|tokens| - 1], tok) + (if tokens[|tokens| - 1] == tok then 1 else 0)
  }

  predicate AreTokens(tokens: seq<string>) { forall t :: t in tokens ==> t != "" }

  /** Every token occurs at least as often as it is wanted. */
  predicate Preserves(text: string, tokens: seq<string>)
    requires AreTokens(tokens)
  {
    forall t :: t in tokens ==> Occurrences(text, t) >= Times(tokens, t)
  }

  method CountOccurrences(s: string, tok: string) returns (n: nat)
    requires tok != ""
    ensures n == Occurrences(s, tok)
  {
    n := 0;
    var rest := s;
    while |rest| >= |tok|
      invariant n + Occurrences(rest, tok) == Occurrences(s, tok)
    {
      if StartsWith(rest, tok) {
        n := n + 1;
        rest := rest[|tok|..];
      } else {
        rest := rest[1..];
      }
    }
  }

  method PreservesTokens(rewritten: string, tokens: seq<string>) returns (ok: bool)
    requires AreTokens(tokens)
    ensures ok <==> Preserves(rewritten, tokens)
  {
    hide Occurrences;
    var want: map<string, nat> := map[];
    for i := 0 to |tokens|
      invariant forall t :: t in want <==> t in tokens[..i]
      invariant forall t :: t in want ==> want[t] == Times(tokens[..i], t)
      invariant forall t :: t !in want ==> Times(tokens[..i], t) == 0
    {
      assert tokens[..i + 1][..i] == tokens[..i];
      want := want[tokens[i] := (if tokens[i] in want then want[tokens[i]] else 0) + 1];
    }
    assert tokens[..|tokens|] == tokens;
    var rest := want.Keys;
    while rest != {}
      invariant rest <= want.Keys
      invariant forall t :: t in want && t !in rest ==> Occurrences(rewritten, t) >= want[t]
      decreases |rest|
    {
      var tok :| tok in rest;
      var n := CountOccurrences(rewritten, tok);
      if n < want[tok] { return false; }
      rest := rest - {tok};
    }
    return true;
  }

  // ----- counting finds as many occurrences as fit -----

  predicate StandsAt(s: string, tok: string, p: nat) { p + |tok| <= |s| && s[p..p + |tok|] == tok }

  /** Places of a token no two of which overlap. */
  predicate Separate(s: string, tok: string, places: set<nat>) {
    && (forall p :: p in places ==> StandsAt(s, tok, p))
    && (forall p, q :: p in places && q in places && p < q ==> p + |tok| <= q)
  }

  /** No choice of separate places has more of them than the scan from the left counts. */
  lemma {:induction false} ScanFindsMost(s: string, tok: string, places: set<nat>, from: nat)
    requires tok != "" && Separate(s, tok, places) && from <= |s| && forall p :: p in places ==> from <= p
    ensures |places| <= Occurrences(s[from..], tok)
    decreases |s| - from
  {
    hide Occurrences, StartsWith, StandsAt;
    ScanStep(s, tok, from);
    if |s| - from < |tok| {
      if places != {} {
        var p :| p in places;
        PlaceFits(s, tok, p);
        assert false;
      }
    } else if StartsWith(s[from..], tok) {
      var rest := FarPlaces(s, tok, places, from);
      ScanFindsMost(s, tok, rest, from + |tok|);
    } else {
      ScanFindsMost(s, tok, places, from + 1);
    }
  }

  lemma {:induction false} ScanStep(s: string, tok: string, from: nat)
    requires tok != "" && from <= |s|
    ensures Occurrences(s[from..], tok) ==
      if |s| - from < |tok| then 0
      else if StartsWith(s[from..], tok) then 1 + Occurrences(s[from + |tok|..], tok)
      else Occurrences(s[from + 1..], tok)
    ensures StartsWith(s[from..], tok) <==> StandsAt(s, tok, from)
  {
    if |s| - from >= |tok| {
      assert s[from..][|tok|..] == s[from + |tok|..] && s[from..][1..] == s[from + 1..];
      assert s[from..][..|tok|] == s[from..from + |tok|];
    }
  }

  lemma {:induction false} PlaceFits(s: string, tok: string, p: nat)
    requires StandsAt(s, tok, p)
    ensures p + |tok| <= |s|
  {
  }

  /** At most one place lies less than a token behind the first possible one. */
  lemma {:induction false} FarPlaces(s: string, tok: string, places: set<nat>, from: nat) returns (rest: set<nat>)
    requires Separate(s, tok, places) && forall p :: p in places ==> from <= p
    ensures Separate(s, tok, rest) && |places| <= |rest| + 1 && forall p :: p in rest ==> from + |tok| <= p
  {
    hide StandsAt;
    var near := set p | p in places && p < from + |tok|;
    AtMostOne(near);
    rest := places - near;
    assert places == near + rest;
  }

  lemma {:induction false} AtMostOne(places: set<nat>)
    requires forall p, q :: p in places && q in places ==> p == q
    ensures |places| <= 1
  {
    if places != {} {
      var p :| p in places;
      assert places == {p};
    }
  }

  /** The places the scan from the left finds. */
  function Found(s: string, tok: string, from: nat): (r: seq<nat>)
    requires tok != "" && from <= |s|
    ensures |r| == Occurrences(s[from..], tok)
    ensures forall k :: 0 <= k < |r| ==> from <= r[k] && StandsAt(s, tok, r[k])
    ensures forall j, k :: 0 <= j < k < |r| ==> r[j] + |tok| <= r[k]
    decreases |s| - from
  {
    if |s| - from < |tok| then []
    else if StartsWith(s[from..], tok) then
      assert s[from..][|tok|..] == s[from + |tok|..] && s[from..][..|tok|] == s[from..from + |tok|];
      [from] + Found(s, tok, from + |tok|)
    else
      assert s[from..][1..] == s[from + 1..];
      Found(s, tok, from + 1)
  }

  // ----- all the tokens at once -----

  predicate Beside(tokens: seq<string>, places: seq<nat>, j: nat, k: nat)
    requires |places| == |tokens| && j < |tokens| && k < |tokens|
  {
    places[j] + |tokens[j]| <= places[k] || places[k] + |tokens[k]| <= places[j]
  }

  /** Each listed token has its own place, and no two places overlap. */
  predicate PlacedAt(text: string, tokens: seq<string>, places: seq<nat>) {
    && |places| == |tokens|
    && (forall k :: 0 <= k < |tokens| ==> StandsAt(text, tokens[k], places[k]))
    && (forall j, k :: 0 <= j < k < |tokens| ==> Beside(tokens, places, j, k))
  }

  /** The text really carries all the listed tokens. */
  ghost predicate Carries(text: string, tokens: seq<string>) {
    exists places: seq<nat> :: PlacedAt(text, tokens, places)
  }

  /** Where the first `n` tokens put a given token. */
  function PlacesFor(tokens: seq<string>, places: seq<nat>, tok: string, n: nat): (r: set<nat>)
    requires |places| == |tokens| && n <= |tokens|
    ensures forall p :: p in r ==> exists k :: 0 <= k < n && tokens[k] == tok && places[k] == p
  {
    if n == 0 then {}
    else PlacesFor(tokens, places, tok, n - 1) + (if tokens[n - 1] == tok then {places[n - 1]} else {})
  }

  lemma {:induction false} StandsThere(text: string, tokens: seq<string>, places: seq<nat>, k: nat)
    requires PlacedAt(text, tokens, places) && k < |tokens|
    ensures StandsAt(text, tokens[k], places[k])
  {
  }

  lemma {:induction false} PlaceApart(text: string, tokens: seq<string>, places: seq<nat>, tok: string, n: nat, p: nat)
    requires PlacedAt(text, tokens, places) && tok != "" && n < |tokens| && tokens[n] == tok
    requires p in PlacesFor(tokens, places, tok, n)
    ensures p + |tok| <= places[n] || places[n] + |tok| <= p
  {
    var k :| 0 <= k < n && tokens[k] == tok && places[k] == p;
    assert Beside(tokens, places, k, n);
  }

  lemma {:induction false} OneMorePlace(s: string, tok: string, places: set<nat>, p: nat)
    requires Separate(s, tok, places) && StandsAt(s, tok, p) && tok != ""
    requires forall q :: q in places ==> q + |tok| <= p || p + |tok| <= q
    ensures Separate(s, tok, places + {p}) && |places + {p}| == |places| + 1
  {
    hide StandsAt;
    assert p !in places;
  }

  lemma {:induction false} PlacesAreSeparate(text: string, tokens: seq<string>, places: seq<nat>, tok: string, n: nat)
    requires |places| == |tokens| && PlacedAt(text, tokens, places) && tok != "" && n <= |tokens|
    ensures Separate(text, tok, PlacesFor(tokens, places, tok, n))
    ensures |PlacesFor(tokens, places, tok, n)| == Times(tokens[..n], tok)
  {
    hide StandsAt, Separate, Beside, PlacedAt;
    if n > 0 {
      PlacesAreSeparate(text, tokens, places, tok, n - 1);
      assert tokens[..n][..n - 1] == tokens[..n - 1];
      var before := PlacesFor(tokens, places, tok, n - 1);
      if tokens[n - 1] == tok {
        forall q | q in before ensures q + |tok| <= places[n - 1] || places[n - 1] + |tok| <= q {
          PlaceApart(text, tokens, places, tok, n - 1, q);
        }
        StandsThere(text, tokens, places, n - 1);
        OneMorePlace(text, tok, before, places[n - 1]);
      } else {
        assert PlacesFor(tokens, places, tok, n) == before;
      }
    } else {
      NoPlaces(text, tok);
    }
  }

  lemma {:induction false} NoPlaces(s: string, tok: string)
    ensures Separate(s, tok, {})
  {
  }

  /** A text that carries the tokens passes the check. So does a core that was left alone, for its own tokens. */
  lemma {:induction false} CarriedPasses(text: string, tokens: seq<string>)
    requires AreTokens(tokens) && Carries(text, tokens)
    ensures Preserves(text, tokens)
  {
    var places: seq<nat> :| PlacedAt(text, tokens, places);
    forall t | t in tokens ensures Occurrences(text, t) >= Times(tokens, t) {
      PlacesAreSeparate(text, tokens, places, t, |tokens|);
      ScanFindsMost(text, t, PlacesFor(tokens, places, t, |tokens|), 0);
      assert text[0..] == text && tokens[..|tokens|] == tokens;
    }
  }

  // ----- when passing the check means carrying the tokens -----

  /** With the second token put at offset `d` of the first, no character differs. */
  predicate Agree(t: string, u: string, d: nat) { forall i :: d <= i < |t| && i - d < |u| ==> t[i] == u[i - d] }

  /** The second token may begin within the first: inside it, or running on behind its end. */
  predicate Clash(t: string, u: string) { exists d :: 0 <= d < |t| && Agree(t, u, d) }

  /** Different listed tokens can share no character of a text. */
  predicate NoClash(tokens: seq<string>) {
    forall i, j :: 0 <= i < |tokens| && 0 <= j < |tokens| && tokens[i] != tokens[j] ==> !Clash(tokens[i], tokens[j])
  }

  lemma {:induction false} OverlapAgrees(text: string, t: string, u: string, p: nat, q: nat)
    requires StandsAt(text, t, p) && StandsAt(text, u, q) && p <= q
    ensures Agree(t, u, q - p)
  {
    forall i | q - p <= i < |t| && i - (q - p) < |u| ensures t[i] == u[i - (q - p)] {
      assert t[i] == text[p + i] && u[i - (q - p)] == text[q + (i - (q - p))];
    }
  }

  lemma {:induction false} TokensBeside(text: string, t: string, u: string, p: nat, q: nat)
    requires StandsAt(text, t, p) && StandsAt(text, u, q) && !Clash(t, u) && !Clash(u, t)
    ensures p + |t| <= q || q + |u| <= p
  {
    hide StandsAt, Agree;
    if p <= q { OverlapAgrees(text, t, u, p, q); } else { OverlapAgrees(text, u, t, q, p); }
  }

  lemma {:induction false} TimesGrow(tokens: seq<string>, tok: string, n: nat, m: nat)
    requires n <= m <= |tokens|
    ensures Times(tokens[..n], tok) <= Times(tokens[..m], tok)
    ensures n < m && tokens[n] == tok ==> Times(tokens[..n], tok) < Times(tokens[..m], tok)
    decreases m
  {
    if n < m {
      TimesGrow(tokens, tok, n, m - 1);
      assert tokens[..m][..m - 1] == tokens[..m - 1];
    }
  }

  /** The place for the token at `k`: as many occurrences of it are passed over as it was listed before. */
  function Placed(text: string, tokens: seq<string>, k: nat): (p: nat)
    requires AreTokens(tokens) && Preserves(text, tokens) && k < |tokens|
    ensures StandsAt(text, tokens[k], p)
  {
    TimesGrow(tokens, tokens[k], k, |tokens|);
    assert tokens[..|tokens|] == tokens && text[0..] == text && tokens[k] in tokens;
    Found(text, tokens[k], 0)[Times(tokens[..k], tokens[k])]
  }

  lemma {:induction false} PlacedBeside(text: string, tokens: seq<string>, j: nat, k: nat)
    requires AreTokens(tokens) && Preserves(text, tokens) && NoClash(tokens) && j < k < |tokens|
    ensures Placed(text, tokens, j) + |tokens[j]| <= Placed(text, tokens, k)
         || Placed(text, tokens, k) + |tokens[k]| <= Placed(text, tokens, j)
  {
    hide Occurrences, Clash;
    if tokens[j] == tokens[k] {
      TimesGrow(tokens, tokens[k], j, k);
      TimesGrow(tokens, tokens[k], k, |tokens|);
      assert tokens[..|tokens|] == tokens && text[0..] == text;
    } else {
      TokensBeside(text, tokens[j], tokens[k], Placed(text, tokens, j), Placed(text, tokens, k));
    }
  }

  lemma {:induction false} PassedCarries(text: string, tokens: seq<string>)
    requires AreTokens(tokens) && Preserves(text, tokens) && NoClash(tokens)
    ensures Carries(text, tokens)
  {
    hide Preserves, NoClash, StandsAt;
    var places: seq<nat> := seq(|tokens|, k requires 0 <= k < |tokens| => Placed(text, tokens, k));
    forall j, k | 0 <= j < k < |tokens| ensures Beside(tokens, places, j, k) {
      PlacedBeside(text, tokens, j, k);
    }
    assert PlacedAt(text, tokens, places);
  }

  // ----- a text too short for clashing tokens that passes all the same -----

  function Lengths(tokens: seq<string>): nat {
    if tokens == [] then 0 else Lengths(tokens[..|tokens| - 1]) + |tokens[|tokens| - 1]|
  }

  function Joined(tokens: seq<string>): string {
    if tokens == [] then "" else Joined(tokens[..|tokens| - 1]) + tokens[|tokens| - 1]
  }

  lemma {:induction false} JoinedLength(tokens: seq<string>)
    ensures |Joined(tokens)| == Lengths(tokens)
  {
    if tokens != [] { JoinedLength(tokens[..|tokens| - 1]); }
  }

  /** The characters the first `n` tokens stand on. */
  function Taken(tokens: seq<string>, places: seq<nat>, n: nat): set<nat>
    requires |places| == |tokens| && n <= |tokens|
  {
    if n == 0 then {} else Taken(tokens, places, n - 1) + Range(places[n - 1], places[n - 1] + |tokens[n - 1]|)
  }

  function Range(a: nat, b: nat): (r: set<nat>)
    requires a <= b
    ensures forall i :: i in r <==> a <= i < b
    ensures |r| == b - a
    decreases b
  {
    if a == b then {} else Range(a, b - 1) + {b - 1}
  }

  lemma {:induction false} TakenBy(tokens: seq<string>, places: seq<nat>, n: nat, i: nat)
    requires |places| == |tokens| && n <= |tokens| && i in Taken(tokens, places, n)
    ensures exists k :: 0 <= k < n && places[k] <= i < places[k] + |tokens[k]|
  {
    if i in Taken(tokens, places, n - 1) { TakenBy(tokens, places, n - 1, i); }
  }

  lemma {:induction false} TakenOnce(text: string, tokens: seq<string>, places: seq<nat>, n: nat, i: nat)
    requires PlacedAt(text, tokens, places) && n < |tokens| && i in Taken(tokens, places, n)
    ensures !(places[n] <= i < places[n] + |tokens[n]|)
  {
    hide Taken;
    TakenBy(tokens, places, n, i);
    var k :| 0 <= k < n && places[k] <= i < places[k] + |tokens[k]|;
    assert Beside(tokens, places, k, n);
  }

  lemma {:induction false} TakenSize(text: string, tokens: seq<string>, places: seq<nat>, n: nat)
    requires |places| == |tokens| && PlacedAt(text, tokens, places) && n <= |tokens|
    ensures |Taken(tokens, places, n)| == Lengths(tokens[..n])
  {
    hide PlacedAt, Range;
    if n > 0 {
      TakenSize(text, tokens, places, n - 1);
      assert tokens[..n][..n - 1] == tokens[..n - 1];
      var before, last := Taken(tokens, places, n - 1), Range(places[n - 1], places[n - 1] + |tokens[n - 1]|);
      forall i | i in before ensures i !in last {
        TakenOnce(text, tokens, places, n - 1, i);
      }
      assert before !! last;
    }
  }

  lemma {:induction false} SubsetSize(a: set<nat>, b: set<nat>)
    requires a <= b
    ensures |a| <= |b|
  {
    assert b == a + (b - a);
  }

  /** A text that carries the tokens is at least as long as they are together. */
  lemma {:induction false} CarriedIsLong(text: string, tokens: seq<string>)
    requires Carries(text, tokens)
    ensures |text| >= Lengths(tokens)
  {
    var places: seq<nat> :| PlacedAt(text, tokens, places);
    TakenSize(text, tokens, places, |tokens|);
    assert tokens[..|tokens|] == tokens;
    forall i | i in Taken(tokens, places, |tokens|) ensures i in Range(0, |text|) {
      TakenBy(tokens, places, |tokens|, i);
      var k :| 0 <= k < |tokens| && places[k] <= i < places[k] + |tokens[k]|;
      assert StandsAt(text, tokens[k], places[k]);
    }
    SubsetSize(Taken(tokens, places, |tokens|), Range(0, |text|));
  }

  lemma {:induction false} CarriesMore(text: string, tokens: seq<string>, tok: string)
    requires Carries(text, tokens)
    ensures Carries(text + tok, tokens + [tok])
  {
    var places: seq<nat> :| PlacedAt(text, tokens, places);
    var longer, more := text + tok, tokens + [tok];
    var all: seq<nat> := places + [|text|];
    forall k | 0 <= k < |more| ensures StandsAt(longer, more[k], all[k]) {
      if k < |tokens| {
        assert StandsAt(text, tokens[k], places[k]);
        assert longer[all[k]..all[k] + |more[k]|] == text[all[k]..all[k] + |more[k]|];
      }
    }
    forall j, k | 0 <= j < k < |more| ensures Beside(more, all, j, k) {
      if k < |tokens| {
        assert Beside(tokens, places, j, k);
      } else {
        assert StandsAt(text, tokens[j], places[j]);
      }
    }
    assert PlacedAt(longer, more, all);
  }

  lemma {:induction false} CarriesAll(base: string, tok: string, p: nat, rest: seq<string>)
    requires StandsAt(base, tok, p)
    ensures Carries(base + Joined(rest), [tok] + rest)
  {
    if rest == [] {
      assert PlacedAt(base, [tok], [p]);
      assert base + Joined(rest) == base && [tok] + rest == [tok];
    } else {
      var front, last := rest[..|rest| - 1], rest[|rest| - 1];
      CarriesAll(base, tok, p, front);
      CarriesMore(base + Joined(front), [tok] + front, last);
      assert base + Joined(rest) == (base + Joined(front)) + last;
      assert [tok] + rest == ([tok] + front) + [last];
    }
  }

  lemma {:induction false} Additive(a: seq<string>, b: seq<string>, tok: string)
    ensures Times(a + b, tok) == Times(a, tok) + Times(b, tok) && Lengths(a + b) == Lengths(a) + Lengths(b)
  {
    if b == [] {
      assert a + b == a;
    } else {
      Additive(a, b[..|b| - 1], tok);
      assert (a + b)[..|a + b| - 1] == a + b[..|b| - 1];
    }
  }

  lemma {:induction false} OneToken(t: string, tok: string)
    ensures Times([t], tok) == (if t == tok then 1 else 0) && Lengths([t]) == |t|
  {
    assert [t][..0] == [];
  }

  function Without(tokens: seq<string>, i: nat): seq<string>
    requires i < |tokens|
  {
    tokens[..i] + tokens[i + 1..]
  }

  lemma {:induction false} WithoutOne(tokens: seq<string>, i: nat, tok: string)
    requires i < |tokens|
    ensures Times(tokens, tok) == Times(Without(tokens, i), tok) + (if tokens[i] == tok then 1 else 0)
    ensures Lengths(tokens) == Lengths(Without(tokens, i)) + |tokens[i]|
  {
    assert tokens == (tokens[..i] + [tokens[i]]) + tokens[i + 1..];
    Additive(tokens[..i] + [tokens[i]], tokens[i + 1..], tok);
    Additive(tokens[..i], [tokens[i]], tok);
    Additive(tokens[..i], tokens[i + 1..], tok);
    OneToken(tokens[i], tok);
  }

  /** The list without its tokens at `i` and `j`. */
  function Others(tokens: seq<string>, i: nat, j: nat): seq<string>
    requires i < |tokens| && j < |tokens| && i != j
  {
    if i < j then Without(Without(tokens, j), i) else Without(Without(tokens, i), j)
  }

  lemma {:induction false} OthersAre(tokens: seq<string>, i: nat, j: nat, tok: string)
    requires i < |tokens| && j < |tokens| && i != j
    ensures Times(tokens, tok) == Times(Others(tokens, i, j), tok)
      + (if tokens[i] == tok then 1 else 0) + (if tokens[j] == tok then 1 else 0)
    ensures Lengths(tokens) == Lengths(Others(tokens, i, j)) + |tokens[i]| + |tokens[j]|
    ensures forall t :: t in Others(tokens, i, j) ==> t in tokens
  {
    var low, high := if i < j then i else j, if i < j then j else i;
    WithoutOne(tokens, high, tok);
    WithoutOne(Without(tokens, high), low, tok);
  }

  /** The two tokens written over each other, the second one `d` characters behind the start of the first. */
  function Overlaid(t: string, u: string, d: nat): string
    requires d < |t|
  {
    if d + |u| <= |t| then t else t[..d] + u
  }

  lemma {:induction false} OverlaidHolds(t: string, u: string, d: nat)
    requires d < |t| && u != "" && Agree(t, u, d)
    ensures |Overlaid(t, u, d)| < |t| + |u| && StandsAt(Overlaid(t, u, d), t, 0) && StandsAt(Overlaid(t, u, d), u, d)
  {
    var o := Overlaid(t, u, d);
    if d + |u| > |t| {
      forall i | 0 <= i < |t| ensures o[i] == t[i] {
      }
    }
    assert o[0..|t|] == t;
    forall i | 0 <= i < |u| ensures o[d + i] == u[i] {
      if d + |u| <= |t| { assert t[d + i] == u[d + i - d]; }
    }
    assert o[d..d + |u|] == u;
  }

  lemma {:induction false} ClashHides(tokens: seq<string>, i: nat, j: nat) returns (text: string)
    requires AreTokens(tokens) && i < |tokens| && j < |tokens| && tokens[i] != tokens[j] && Clash(tokens[i], tokens[j])
    ensures Preserves(text, tokens) && !Carries(text, tokens)
  {
    hide Occurrences, Agree, StandsAt;
    var t, u := tokens[i], tokens[j];
    var d :| 0 <= d < |t| && Agree(t, u, d);
    assert u in tokens;
    OverlaidHolds(t, u, d);
    var base, rest := Overlaid(t, u, d), Others(tokens, i, j);
    text := base + Joined(rest);
    OthersAre(tokens, i, j, t);
    JoinedLength(rest);
    if Carries(text, tokens) {
      CarriedIsLong(text, tokens);
      assert false;
    }
    CarriesAll(base, t, 0, rest);
    CarriesAll(base, u, d, rest);
    CarriedPasses(text, [t] + rest);
    CarriedPasses(text, [u] + rest);
    forall tok | tok in tokens ensures Occurrences(text, tok) >= Times(tokens, tok) {
      OthersAre(tokens, i, j, tok);
      OneToken(t, tok);
      OneToken(u, tok);
      Additive([t], rest, tok);
      Additive([u], rest, tok);
      InOthers(tokens, i, j, tok);
    }
  }

  lemma {:induction false} InOthers(tokens: seq<string>, i: nat, j: nat, tok: string)
    requires i < |tokens| && j < |tokens| && i != j && tok in tokens
    ensures tok in [tokens[i]] + Others(tokens, i, j) || tok in [tokens[j]] + Others(tokens, i, j)
  {
    if tok != tokens[i] && tok != tokens[j] {
      OthersAre(tokens, i, j, tok);
      Listed(tokens, tok);
      Listed(Others(tokens, i, j), tok);
    }
  }

  lemma {:induction false} Listed(tokens: seq<string>, tok: string)
    ensures tok in tokens <==> Times(tokens, tok) > 0
  {
    if tokens != [] {
      Listed(tokens[..|tokens| - 1], tok);
      assert tokens == tokens[..|tokens| - 1] + [tokens[|tokens| - 1]];
    }
  }

  /** Passing the check means carrying every listed token, at every text, exactly when no two different ones can
      overlap. */
  lemma {:induction false} CheckIsExact(tokens: seq<string>)
    requires AreTokens(tokens)
    ensures NoClash(tokens) <==> forall text :: Preserves(text, tokens) <==> Carries(text, tokens)
  {
    hide Preserves, Carries, Clash;
    forall text: string | Carries(text, tokens) ensures Preserves(text, tokens) {
      CarriedPasses(text, tokens);
    }
    if NoClash(tokens) {
      forall text: string | Preserves(text, tokens) ensures Carries(text, tokens) {
        PassedCarries(text, tokens);
      }
    } else {
      var i, j :| 0 <= i < |tokens| && 0 <= j < |tokens| && tokens[i] != tokens[j] && Clash(tokens[i], tokens[j]);
      var text := ClashHides(tokens, i, j);
    }
  }

  /** A token inside another counts for both: the tag before the code span may be dropped unnoticed. */
  lemma {:induction false} NestedTokensCountTwice()
    ensures Carries("<b> `<b>`", ["<b>", "`<b>`"])
    ensures Preserves("`<b>`", ["<b>", "`<b>`"]) && !Carries("`<b>`", ["<b>", "`<b>`"])
  {
    var tokens := ["<b>", "`<b>`"];
    assert tokens[..1][..0] == [] && tokens[..1] == ["<b>"];
    assert Times(tokens[..1], "<b>") == 1 && Times(tokens[..1], "`<b>`") == 0;
    assert "`<b>`"[1..] == "<b>`" && "<b>`"[..3] == "<b>" && "<b>`"[3..] == "`";
    assert Occurrences("`", "<b>") == 0 && Occurrences("<b>`", "<b>") == 1;
    assert "`<b>`"[..3] == "`<b" && "`<b>`"[..5] == "`<b>`" && "`<b>`"[5..] == "";
    var core := "<b> `<b>`";
    assert core[0..0 + 3] == "<b>" && core[4..4 + 5] == "`<b>`";
    assert PlacedAt(core, tokens, [0, 4]);
    assert Lengths(tokens[..1]) == 3 && Lengths(tokens) == 8;
    if Carries("`<b>`", tokens) {
      CarriedIsLong("`<b>`", tokens);
      assert false;
    }
  }
}
