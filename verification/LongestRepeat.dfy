/**
 The longest run of lines that an edit payload repeats.
 */
module LongestRepeat {
  import opened Basics

  datatype Repeat = Repeat(start: nat, length: nat)

  /** A line, and whether it counts as meaningful: at least four characters without the space around it. */
  datatype Line = Line(text: string, meaningful: bool)

  /** How many lines from `i` on equal those from `j` on, without reaching `j`. */
  function Run(block: seq<Line>, i: nat, j: nat): nat {
    if i <= j <= |block| then RunFrom(block, i, j, 0) else 0
  }

  function RunFrom(block: seq<Line>, i: nat, j: nat, k: nat): nat
    requires i + k <= j && j + k <= |block|
    decreases j - i - k
  {
    if i + k < j && j + k < |block| && block[i + k] == block[j + k] then RunFrom(block, i, j, k + 1) else k
  }

  lemma {:induction false} RunFromFacts(block: seq<Line>, i: nat, j: nat, k: nat)
    requires i + k <= j && j + k <= |block|
    ensures var r := RunFrom(block, i, j, k);
      k <= r && i + r <= j && j + r <= |block| && block[i + k..i + r] == block[j + k..j + r]
    decreases j - i - k
  {
    if i + k < j && j + k < |block| && block[i + k] == block[j + k] {
      RunFromFacts(block, i, j, k + 1);
      var r := RunFrom(block, i, j, k);
      FirstOfPart(block, i + k, i + r);
      FirstOfPart(block, j + k, j + r);
    }
  }

  lemma {:induction false} FirstOfPart(block: seq<Line>, start: nat, end: nat)
    requires start < end <= |block|
    ensures block[start..end] == [block[start]] + block[start + 1..end]
  {
  }

  function Meaningful(lines: seq<Line>): nat {
    if lines == [] then 0 else Meaningful(lines[..|lines| - 1]) + (if lines[|lines| - 1].meaningful then 1 else 0)
  }

  /** Half of the lines, rounded up, but two at least. */
  function Quota(k: nat): nat { Max((k + 1) / 2, 2) }

  /** A run of `k` lines at `i` that stands again at `j`, clear of the first, with enough meaningful lines. */
  predicate IsRepeat(block: seq<Line>, minLen: nat, i: nat, j: nat, k: nat) {
    && minLen <= k && i + k <= j && j + k <= |block|
    && block[i..i + k] == block[j..j + k] && Meaningful(block[i..i + k]) >= Quota(k)
  }

  /** The longest run at a pair of places is long and meaningful enough. */
  predicate Qualifies(block: seq<Line>, minLen: nat, i: nat, j: nat) {
    i + minLen <= j && j + minLen <= |block| && LongRun(block, minLen, i, j)
  }

  predicate LongRun(block: seq<Line>, minLen: nat, i: nat, j: nat)
    requires i <= j <= |block|
  {
    var k := Run(block, i, j);
    k >= minLen && i + k <= |block| && Meaningful(block[i..i + k]) >= Quota(k)
  }

  lemma {:induction false} QualifyingRepeats(block: seq<Line>, minLen: nat, i: nat, j: nat)
    requires Qualifies(block, minLen, i, j)
    ensures IsRepeat(block, minLen, i, j, Run(block, i, j))
  {
    hide RunFrom, Meaningful, Quota;
    RunFromFacts(block, i, j, 0);
  }

  predicate SameAt(block: seq<Line>, i: nat, j: nat, x: nat) {
    i + x < |block| && j + x < |block| && block[i + x] == block[j + x]
  }

  /** No run at the pair is longer than its longest. */
  lemma {:induction false} RunIsLongest(block: seq<Line>, i: nat, j: nat, k: nat, from: nat)
    requires from <= k && i + k <= j && j + k <= |block| && forall x: nat :: from <= x < k ==> SameAt(block, i, j, x)
    ensures k <= RunFrom(block, i, j, from)
    decreases k - from
  {
    if from < k {
      assert SameAt(block, i, j, from);
      RunIsLongest(block, i, j, k, from + 1);
    } else {
      RunFromFacts(block, i, j, from);
    }
  }

  /** All pairs up to a place in the double loop. */
  predicate Before(a: nat, b: nat, i: nat, j: nat) { a < i || (a == i && b < j) }

  /** A repeat that no qualifying pair so far beats, nor an earlier one equals. */
  predicate Unbeaten(block: seq<Line>, r: Repeat, a: nat, b: nat) {
    Run(block, a, b) <= r.length && (a < r.start ==> Run(block, a, b) < r.length)
  }

  predicate Found(block: seq<Line>, minLen: nat, r: Repeat, b: nat) {
    Qualifies(block, minLen, r.start, b) && Run(block, r.start, b) == r.length
  }

  ghost predicate BestSoFar(block: seq<Line>, minLen: nat, best: Option<Repeat>, i: nat, j: nat) {
    match best
    case None => forall a: nat, b: nat :: Qualifies(block, minLen, a, b) ==> !Before(a, b, i, j)
    case Some(r) =>
      && (exists b: nat :: Found(block, minLen, r, b))
      && (forall a: nat, b: nat :: Qualifies(block, minLen, a, b) && Before(a, b, i, j) ==> Unbeaten(block, r, a, b))
  }

  lemma {:induction false} NextPair(block: seq<Line>, minLen: nat, best: Option<Repeat>, i: nat, j: nat, next: nat)
    requires BestSoFar(block, minLen, best, i, j) && next == j + 1 && i + minLen <= j && j + minLen <= |block|
    requires best.Some? ==> best.value.start <= i
    ensures var k := Run(block, i, j);
      var better := Qualifies(block, minLen, i, j) && (best.None? || k > best.value.length);
      BestSoFar(block, minLen, if better then Some(Repeat(i, k)) else best, i, next)
  {
    hide Qualifies, Run;
    assert forall a: nat, b: nat :: Before(a, b, i, next) ==> Before(a, b, i, j) || (a == i && b == j);
    if Qualifies(block, minLen, i, j) && (best.None? || Run(block, i, j) > best.value.length) {
      assert Found(block, minLen, Repeat(i, Run(block, i, j)), j);
    }
  }

  /** Pairs outside the inner loop's range do not qualify. */
  lemma {:induction false} NextRow(block: seq<Line>, minLen: nat, best: Option<Repeat>, i: nat, j: nat, next: nat)
    requires BestSoFar(block, minLen, best, i, j) && next == i + 1 && j + minLen > |block|
    ensures BestSoFar(block, minLen, best, next, next + minLen)
  {
    hide Run, LongRun, Found, Unbeaten;
    assert forall a: nat, b: nat ::
      Qualifies(block, minLen, a, b) && Before(a, b, next, next + minLen) ==> Before(a, b, i, j);
  }

  method RunLength(block: seq<Line>, i: nat, j: nat) returns (k: nat)
    requires i <= j <= |block|
    ensures k == Run(block, i, j)
  {
    k := 0;
    while i + k < j && j + k < |block| && block[i + k] == block[j + k]
      invariant i + k <= j && j + k <= |block| && RunFrom(block, i, j, k) == RunFrom(block, i, j, 0)
      decreases j - i - k
    {
      k := k + 1;
    }
  }

  method CountMeaningful(lines: seq<Line>) returns (n: nat)
    ensures n == Meaningful(lines)
  {
    n := 0;
    for x := 0 to |lines|
      invariant n == Meaningful(lines[..x])
    {
      assert lines[..x + 1][..x] == lines[..x];
      if lines[x].meaningful { n := n + 1; }
    }
    assert lines[..|lines|] == lines;
  }

  /** None exactly when no pair qualifies; otherwise a repeat that no qualifying pair beats, nor an earlier one
      equals. */
  ghost predicate Answers(block: seq<Line>, minLen: nat, best: Option<Repeat>) {
    && (best.None? <==> forall i, j :: !Qualifies(block, minLen, i, j))
    && (best.Some? ==> exists j :: Found(block, minLen, best.value, j))
    && (best.Some? ==> forall i, j :: Qualifies(block, minLen, i, j) ==> Unbeaten(block, best.value, i, j))
  }

  /**
   The first of the longest runs that qualify at their pair of places. None comes back exactly when no pair of
   places has a longest run that qualifies.
   */
  method FindLongestRepeat(block: seq<Line>, minLen: nat) returns (best: Option<Repeat>)
    ensures Answers(block, minLen, best)
  {
    hide BestSoFar, Qualifies, Run, Unbeaten, Meaningful, Quota;
    var n := |block|;
    best := None;
    if n < 2 * minLen {
      TooShort(block, minLen);
      return;
    }
    FirstRow(block, minLen);
    for i := 0 to n - minLen + 1
      invariant BestSoFar(block, minLen, best, i, i + minLen) && (best.Some? ==> best.value.start <= i)
    {
      var j := i + minLen;
      while j < n - minLen + 1
        invariant i + minLen <= j
        invariant BestSoFar(block, minLen, best, i, j) && (best.Some? ==> best.value.start <= i)
        decreases n - minLen + 1 - j
      {
        NextPair(block, minLen, best, i, j, j + 1);
        var k := RunLength(block, i, j);
        RunFits(block, i, j);
        QualifiesWhen(block, minLen, i, j);
        if k >= minLen {
          var meaningful := CountMeaningful(block[i..i + k]);
          if meaningful >= Quota(k) && (best.None? || k > best.value.length) {
            best := Some(Repeat(i, k));
          }
        }
        j := j + 1;
      }
      NextRow(block, minLen, best, i, j, i + 1);
    }
    LastRow(block, minLen, best);
  }

  lemma {:induction false} TooShort(block: seq<Line>, minLen: nat)
    requires |block| < 2 * minLen
    ensures forall i, j :: !Qualifies(block, minLen, i, j)
  {
    hide LongRun;
  }

  lemma {:induction false} RunFits(block: seq<Line>, i: nat, j: nat)
    requires i <= j <= |block|
    ensures i + Run(block, i, j) <= j && j + Run(block, i, j) <= |block|
  {
    RunFromFacts(block, i, j, 0);
  }

  lemma {:induction false} QualifiesWhen(block: seq<Line>, minLen: nat, i: nat, j: nat)
    requires i + minLen <= j && j + minLen <= |block|
    ensures i + Run(block, i, j) <= |block|
    ensures Qualifies(block, minLen, i, j)
       <==> Run(block, i, j) >= minLen && Meaningful(block[i..i + Run(block, i, j)]) >= Quota(Run(block, i, j))
  {
    hide RunFrom;
    RunFits(block, i, j);
  }

  lemma {:induction false} FirstRow(block: seq<Line>, minLen: nat)
    ensures BestSoFar(block, minLen, None, 0, minLen)
  {
    hide LongRun;
  }

  lemma {:induction false} LastRow(block: seq<Line>, minLen: nat, best: Option<Repeat>)
    requires |block| >= minLen && BestSoFar(block, minLen, best, |block| - minLen + 1, |block| + 1)
    ensures Answers(block, minLen, best)
  {
    hide Run, LongRun, Unbeaten;
    assert forall a: nat, b: nat :: Qualifies(block, minLen, a, b) ==> Before(a, b, |block| - minLen + 1, |block| + 1);
  }

  // ----- what the quota on longest runs misses -----

  /** The longest run at a pair has too few meaningful lines for its length. */
  predicate Drowned(block: seq<Line>, i: nat, j: nat) {
    var k := Run(block, i, j);
    i + k <= |block| && Meaningful(block[i..i + k]) < Quota(k)
  }

  /** A repeat is part of the longest run at its places, so they qualify unless that run drowns it. */
  lemma {:induction false} RepeatInRun(block: seq<Line>, minLen: nat, i: nat, j: nat, k: nat)
    requires IsRepeat(block, minLen, i, j, k)
    ensures k <= Run(block, i, j) && (Qualifies(block, minLen, i, j) <==> !Drowned(block, i, j))
  {
    hide Meaningful, Quota, RunFrom;
    forall x: nat | x < k ensures SameAt(block, i, j, x) {
      assert block[i..i + k][x] == block[j..j + k][x];
    }
    RunIsLongest(block, i, j, k, 0);
    QualifiesWhen(block, minLen, i, j);
  }

  /** None comes back exactly when the longest run drowns every repeat that there is. */
  lemma {:induction false} MissedWhen(block: seq<Line>, minLen: nat, best: Option<Repeat>)
    requires Answers(block, minLen, best)
    ensures best.None? <==> forall i, j, k: nat :: IsRepeat(block, minLen, i, j, k) ==> Drowned(block, i, j)
  {
    hide IsRepeat, Qualifies, Drowned, Run;
    if best.None? {
      forall i, j, k: nat | IsRepeat(block, minLen, i, j, k) ensures Drowned(block, i, j) {
        RepeatInRun(block, minLen, i, j, k);
      }
    } else {
      var j :| Found(block, minLen, best.value, j);
      QualifyingRepeats(block, minLen, best.value.start, j);
      RepeatInRun(block, minLen, best.value.start, j, Run(block, best.value.start, j));
    }
  }

  /** What comes back is the longest repeat exactly when no drowned one is longer. */
  lemma {:induction false} LongestWhen(block: seq<Line>, minLen: nat, best: Option<Repeat>)
    requires Answers(block, minLen, best) && best.Some?
    ensures exists j :: IsRepeat(block, minLen, best.value.start, j, best.value.length)
    ensures (forall i, j, k: nat :: IsRepeat(block, minLen, i, j, k) ==> k <= best.value.length)
       <==> (forall i, j, k: nat :: IsRepeat(block, minLen, i, j, k) && Drowned(block, i, j) ==> k <= best.value.length)
  {
    hide IsRepeat, Qualifies, Drowned, Run;
    var j :| Found(block, minLen, best.value, j);
    QualifyingRepeats(block, minLen, best.value.start, j);
    forall a, b, k: nat | IsRepeat(block, minLen, a, b, k) && !Drowned(block, a, b) ensures k <= best.value.length {
      RepeatInRun(block, minLen, a, b, k);
      assert Unbeaten(block, best.value, a, b);
    }
  }

  predicate AllMeaningful(lines: seq<Line>) { forall l :: l in lines ==> l.meaningful }

  lemma {:induction false} CountAll(lines: seq<Line>)
    requires AllMeaningful(lines)
    ensures Meaningful(lines) == |lines|
  {
    if lines != [] {
      assert forall l :: l in lines[..|lines| - 1] ==> l in lines;
      CountAll(lines[..|lines| - 1]);
    }
  }

  /** Where every line is meaningful, a repeat is found if there is one, and the longest. */
  lemma {:induction false} MeaningfulIsExact(block: seq<Line>, minLen: nat, best: Option<Repeat>)
    requires Answers(block, minLen, best) && AllMeaningful(block)
    ensures best.None? <==> forall i, j, k: nat :: !IsRepeat(block, minLen, i, j, k)
    ensures best.Some? ==> forall i, j, k: nat :: IsRepeat(block, minLen, i, j, k) ==> k <= best.value.length
  {
    hide IsRepeat, Answers, Drowned, Run;
    MissedWhen(block, minLen, best);
    if best.Some? { LongestWhen(block, minLen, best); }
    forall i, j, k: nat | IsRepeat(block, minLen, i, j, k) ensures !Drowned(block, i, j) {
      NeverDrowned(block, minLen, i, j, k);
    }
  }

  lemma {:induction false} NeverDrowned(block: seq<Line>, minLen: nat, i: nat, j: nat, k: nat)
    requires AllMeaningful(block) && IsRepeat(block, minLen, i, j, k)
    ensures !Drowned(block, i, j)
  {
    hide Meaningful, Run;
    RepeatInRun(block, minLen, i, j, k);
    var r := Run(block, i, j);
    if i + r <= |block| {
      var run, part := block[i..i + r], block[i..i + k];
      assert forall l :: l in run ==> l in block;
      assert forall l :: l in part ==> l in block;
      CountAll(run);
      CountAll(part);
    }
  }

  /** Two meaningful lines and three blank ones, written twice. */
  const TAILED := [
    Line("alpha", true), Line("beta_", true), Line("", false), Line("", false), Line("", false),
    Line("alpha", true), Line("beta_", true), Line("", false), Line("", false), Line("", false)]

  /**
   The block repeats four lines, half of them meaningful, and yet no pair qualifies: the longest run has a fifth
   line, and two meaningful lines are not half of five. So none comes back.
   */
  lemma {:induction false} LongTailHidesRepeat()
    ensures IsRepeat(TAILED, 4, 0, 5, 4)
    ensures forall i, j :: !Qualifies(TAILED, 4, i, j)
  {
    hide RunFrom;
    var b := TAILED;
    var four := b[0..4];
    assert four == b[5..9];
    CountFour(four);
    forall i: nat, j: nat | i + 4 <= j && j + 4 <= |b| ensures !Qualifies(b, 4, i, j) {
      NoneQualifies(i, j);
    }
  }

  lemma {:induction false} CountOne(lines: seq<Line>, l: Line)
    ensures Meaningful(lines + [l]) == Meaningful(lines) + (if l.meaningful then 1 else 0)
  {
    assert (lines + [l])[..|lines|] == lines;
  }

  function Ones(b: bool): nat { if b then 1 else 0 }

  lemma {:induction false} CountFour(x: seq<Line>)
    requires |x| >= 4
    ensures Meaningful(x[..4])
      == Ones(x[0].meaningful) + Ones(x[1].meaningful) + Ones(x[2].meaningful) + Ones(x[3].meaningful)
    ensures |x| == 4 ==> x[..4] == x
  {
    CountOne([], x[0]);
    CountOne([x[0]], x[1]);
    CountOne([x[0], x[1]], x[2]);
    CountOne([x[0], x[1], x[2]], x[3]);
    assert [] + [x[0]] == [x[0]] && [x[0]] + [x[1]] == [x[0], x[1]];
    assert [x[0], x[1]] + [x[2]] == [x[0], x[1], x[2]] && [x[0], x[1], x[2]] + [x[3]] == x[..4];
  }

  lemma {:induction false} NoneQualifies(i: nat, j: nat)
    requires i + 4 <= j <= 6
    ensures !Qualifies(TAILED, 4, i, j)
  {
    hide Meaningful;
    var b := TAILED;
    RunFits(b, i, j);
    if i == 0 && j == 5 {
      assert forall x: nat :: x < 5 ==> SameAt(b, 0, 5, x);
      RunIsLongest(b, 0, 5, 5, 0);
      var five := b[0..5];
      CountFour(five);
      CountOne(five[..4], five[4]);
      assert five[..4] + [five[4]] == five;
    } else if i == 1 && j == 6 {
      assert forall x: nat :: x < 4 ==> SameAt(b, 1, 6, x);
      RunIsLongest(b, 1, 6, 4, 0);
      CountFour(b[1..5]);
    } else {
      DifferentStart(b, i, j);
    }
  }

  lemma {:induction false} DifferentStart(block: seq<Line>, i: nat, j: nat)
    requires i < j < |block| && block[i] != block[j]
    ensures Run(block, i, j) == 0
  {
  }

  // ----- a longer repeat that loses to a shorter one -----

  /** Three meaningful lines and four others, twice; then four meaningful lines, twice. */
  function Row(x: nat): Line {
    if x < 14 then
      var c := 'a' + (x % 7) as char;
      if x % 7 < 3 then Line("text" + [c], true) else Line([c], false)
    else Line("text" + ['p' + ((x - 14) % 4) as char], true)
  }

  const TWO_REPEATS := seq(22, x requires 0 <= x => Row(x))

  lemma {:induction false} SameRows(x: nat, y: nat)
    requires x < y < 22 && Row(x) == Row(y)
    ensures (y < 14 && y == x + 7) || (x >= 14 && y == x + 4)
  {
    var a, b := Row(x).text, Row(y).text;
    assert a[|a| - 1] == b[|b| - 1];
  }

  lemma {:induction false} CountFront(i: nat, r: nat)
    requires i + r <= 14 && 3 <= i + r <= 7 && i <= 3
    ensures Meaningful(TWO_REPEATS[i..i + r]) == 3 - i
    decreases r
  {
    var part := TWO_REPEATS[i..i + r];
    if i + r > 3 {
      CountFront(i, r - 1);
      assert part[..r - 1] == TWO_REPEATS[i..i + (r - 1)];
    } else {
      CountStart(i, r);
    }
  }

  lemma {:induction false} CountStart(i: nat, r: nat)
    requires i + r <= 3
    ensures Meaningful(TWO_REPEATS[i..i + r]) == r
  {
    CountAll(TWO_REPEATS[i..i + r]);
  }

  lemma {:induction false} RunRows(i: nat, j: nat, x: nat)
    requires i <= j <= 22 && x < Run(TWO_REPEATS, i, j)
    ensures j + x < 22 && Row(i + x) == Row(j + x)
  {
    hide RunFrom, Row;
    var b, r := TWO_REPEATS, Run(TWO_REPEATS, i, j);
    RunFromFacts(b, i, j, 0);
    assert b[i..i + r][x] == b[j..j + r][x];
  }

  /** The run at each of the first places goes on to the end of the seven lines. */
  lemma {:induction false} FrontRun(i: nat)
    requires i <= 3
    ensures Run(TWO_REPEATS, i, i + 7) == 7 - i
  {
    hide RunFrom, Row;
    var b, k, j := TWO_REPEATS, 7 - i, i + 7;
    forall x: nat | x < k ensures SameAt(b, i, j, x) { RowsAgain(i + x); }
    RunIsLongest(b, i, j, k, 0);
    var r := Run(b, i, j);
    RunFromFacts(b, i, j, 0);
    if r > k {
      RunRows(i, j, k);
      SameRows(7, 14);
    }
  }

  lemma {:induction false} RowsAgain(x: nat)
    requires x < 7
    ensures Row(x) == Row(x + 7)
  {
  }

  /**
   A repeat of five lines, three of them meaningful, is part of a run of seven, of which three are too few; so the
   four lines repeated further down come back instead.
   */
  lemma {:induction false} LongerRepeatLoses(best: Option<Repeat>)
    requires Answers(TWO_REPEATS, 4, best)
    ensures IsRepeat(TWO_REPEATS, 4, 0, 7, 5) && best.Some? && best.value.length == 4
  {
    hide Run, Row, Meaningful, Unbeaten;
    var b := TWO_REPEATS;
    FiveLines();
    FourLines();
    assert Unbeaten(b, best.value, 14, 18) by { assert Qualifies(b, 4, 14, 18); }
    var j :| Found(b, 4, best.value, j);
    AtMostFour(best.value.start, j);
    Beats(b, best.value, 14, 18);
  }

  lemma {:induction false} Beats(block: seq<Line>, r: Repeat, a: nat, b: nat)
    requires Unbeaten(block, r, a, b)
    ensures Run(block, a, b) <= r.length
  {
  }

  lemma {:induction false} FiveLines()
    ensures IsRepeat(TWO_REPEATS, 4, 0, 7, 5)
  {
    hide Row;
    var b := TWO_REPEATS;
    forall x: nat | x < 5 ensures b[0..5][x] == b[7..12][x] { RowsAgain(x); }
    assert b[0..5] == b[7..12];
    CountFront(0, 5);
  }

  lemma {:induction false} FourLines()
    ensures Qualifies(TWO_REPEATS, 4, 14, 18) && Run(TWO_REPEATS, 14, 18) == 4
  {
    hide RunFrom, Row, Meaningful;
    var b := TWO_REPEATS;
    forall x: nat | x < 4 ensures SameAt(b, 14, 18, x) { RowsBelow(x); }
    RunIsLongest(b, 14, 18, 4, 0);
    RunFromFacts(b, 14, 18, 0);
    forall l | l in b[14..18] ensures l.meaningful {
      var x :| 0 <= x < 4 && b[14..18][x] == l;
      RowsBelow(x);
    }
    CountAll(b[14..18]);
    QualifiesWhen(b, 4, 14, 18);
  }

  lemma {:induction false} RowsBelow(x: nat)
    requires x < 4
    ensures Row(14 + x) == Row(18 + x) && Row(14 + x).meaningful
  {
  }

  lemma {:induction false} AtMostFour(i: nat, j: nat)
    requires Qualifies(TWO_REPEATS, 4, i, j)
    ensures Run(TWO_REPEATS, i, j) <= 4
  {
    hide Run, RunFrom, Row, Meaningful;
    var b := TWO_REPEATS;
    RunFits(b, i, j);
    QualifiesWhen(b, 4, i, j);
    if Run(b, i, j) > 4 {
      RunRows(i, j, 0);
      SameRows(i, j);
      if i <= 3 {
        FrontRun(i);
        CountFront(i, 7 - i);
      } else {
        RunRows(i, j, 4);
        SameRows(i + 4, j + 4);
      }
    }
  }
}
