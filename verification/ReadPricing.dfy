/**
 What a replay of file reads under another configuration costs, and that nothing the reader saw is missing from it.
 */
module ReadPricing {
  import opened Basics
  import opened StableSorting
  import opened LineSpans
  import opened ReadCoverage

  datatype Intent = Bare | Range(start: nat, end: Option<int>) | Raw | Other

  datatype ReadCall = ReadCall(intent: Intent, actual: Option<Span>)

  datatype FileStats = FileStats(sizeLines: int, tokensPerLine: real, bytesPerLine: real)

  datatype Config = Config(defaultPage: int, lineCap: int, byteCap: int, summarizeMin: int)

  const ROUNDTRIP_OVERHEAD := 200.0

  /** Lines that fit the byte limit. */
  function ByteLines(fs: FileStats, cfg: Config): int
    requires fs.bytesPerLine > 0.0
  {
    Max(1, ((cfg.byteCap as real) / fs.bytesPerLine).Floor)
  }

  function MaxPerCall(fs: FileStats, cfg: Config): int {
    if fs.bytesPerLine > 0.0 then Min(cfg.lineCap, ByteLines(fs, cfg)) else cfg.lineCap
  }

  /** What a call returns under a configuration: what was asked for, bounded by file, page and caps. */
  function EffectiveReturned(rc: ReadCall, fs: FileStats, cfg: Config): (r: Option<Span>)
    ensures r.None? <==> rc.intent.Other?
    ensures r.Some? ==> Proper(r.value) && 1 <= r.value.start
  {
    var size := Max(fs.sizeLines, 1);
    if rc.intent.Other? then None
    else
      var start: nat := if rc.intent.Range? && rc.intent.start > 0 then rc.intent.start else 1;
      var wanted := match rc.intent
        case Bare => cfg.defaultPage
        case Range(_, end) => if end.Some? then end.value else start + cfg.defaultPage - 1
        case _ => size;
      var capped := Min(Min(wanted, size), start + cfg.lineCap - 1);
      var end := if fs.bytesPerLine > 0.0 then Min(capped, start + ByteLines(fs, cfg) - 1) else capped;
      Some(Span(start, Max(end, start)))
  }

  function FirstLine(rc: ReadCall): nat { if rc.intent.Range? && rc.intent.start > 0 then rc.intent.start else 1 }

  /** A line up to which the call asks, in a file that counts as having a line at least. */
  predicate AskedFor(rc: ReadCall, fs: FileStats, cfg: Config, l: nat) {
    && l <= Max(fs.sizeLines, 1)
    && match rc.intent
       case Bare => l <= cfg.defaultPage
       case Range(_, Some(end)) => l <= end
       case Range(_, None) => l < FirstLine(rc) + cfg.defaultPage
       case _ => true
  }

  /** So many lines are within both caps. */
  predicate WithinCaps(n: nat, fs: FileStats, cfg: Config) {
    n <= cfg.lineCap && (fs.bytesPerLine > 0.0 ==> (n as real) * fs.bytesPerLine <= cfg.byteCap as real)
  }

  lemma {:induction false} FloorFits(n: nat, cap: int, per: real)
    requires per > 0.0
    ensures n <= ((cap as real) / per).Floor <==> (n as real) * per <= cap as real
  {
    var q := (cap as real) / per;
    assert q * per == cap as real;
    if (n as real) <= q { Scaled(n as real, q, per); }
    if (n as real) * per <= cap as real && (n as real) > q { Scaled(q, n as real, per); }
  }

  lemma {:induction false} Scaled(a: real, b: real, c: real)
    requires c > 0.0
    ensures a <= b ==> a * c <= b * c
    ensures a < b ==> a * c < b * c
  {
  }

  /** A call returns its first line, and on from there what it asks for as long as both caps allow. */
  lemma {:induction false} ReturnsExactly(rc: ReadCall, fs: FileStats, cfg: Config, l: nat)
    requires !rc.intent.Other?
    ensures HasLine(EffectiveReturned(rc, fs, cfg).value, l)
       <==> l == FirstLine(rc)
            || (l > FirstLine(rc) && AskedFor(rc, fs, cfg, l) && WithinCaps(l - FirstLine(rc) + 1, fs, cfg))
  {
    if l > FirstLine(rc) && fs.bytesPerLine > 0.0 {
      FloorFits(l - FirstLine(rc) + 1, cfg.byteCap, fs.bytesPerLine);
    }
  }

  /** A gap is read in calls of as many lines as both caps allow, and of one line if the byte limit is below that. */
  lemma {:induction false} PerCallMeans(n: nat, fs: FileStats, cfg: Config)
    requires n >= 1
    ensures n <= MaxPerCall(fs, cfg) <==> n <= cfg.lineCap && (n == 1 || WithinCaps(n, fs, cfg))
  {
    if fs.bytesPerLine > 0.0 {
      FloorFits(n, cfg.byteCap, fs.bytesPerLine);
    }
  }

  /** A summary of a bare read is cheaper per line. */
  function CostOfChunk(s: Span, fs: FileStats, bare: bool, cfg: Config): real {
    var raw := (Max(s.end - s.start + 1, 0) as real) * fs.tokensPerLine;
    if bare && cfg.summarizeMin >= 0 && fs.sizeLines >= cfg.summarizeMin then raw * 0.35 else raw
  }

  // ----- chunks -----

  function Chunks(s: nat, e: nat, per: nat): seq<Span>
    requires per >= 1
    decreases e + 1 - s
  {
    if s > e then [] else [Span(s, Min(s + per - 1, e))] + Chunks(Min(s + per - 1, e) + 1, e, per)
  }

  /** Length divided by the cap, rounded up. */
  function CallsFor(lines: nat, per: nat): nat
    requires per >= 1
  {
    (lines + per - 1) / per
  }

  function TotalLines(spans: seq<Span>): nat {
    if spans == [] then 0 else TotalLines(spans[..|spans| - 1]) + LinesOf(spans[|spans| - 1])
  }

  /** Chunks follow each other without gap or overlap, none is too long, and there are as few as can be. */
  lemma {:induction false} ChunksCover(s: nat, e: nat, per: nat)
    requires per >= 1
    ensures var cs := Chunks(s, e, per);
      && (forall l: nat :: Covers(cs, l) <==> s <= l <= e)
      && (forall c :: c in cs ==> Proper(c) && s <= c.start && c.end <= e && LinesOf(c) <= per)
      && (forall i, j :: 0 <= i < j < |cs| ==> cs[i].end < cs[j].start)
      && |cs| == CallsFor(if s <= e then e + 1 - s else 0, per)
    decreases e + 1 - s
  {
    hide Covers;
    var cs := Chunks(s, e, per);
    if s > e {
      NothingCovered();
      assert CallsFor(0, per) == 0 by { NoCalls(per); }
    } else {
      var first, next := Span(s, Min(s + per - 1, e)), Min(s + per - 1, e) + 1;
      var rest := Chunks(next, e, per);
      ChunksCover(next, e, per);
      OneMoreCall(e + 1 - s, per);
      assert cs == [first] + rest;
      forall l: nat ensures Covers(cs, l) <==> s <= l <= e {
        CoversJoin([first], rest, l);
        CoversOne(first, l);
      }
      forall i, j | 0 <= i < j < |cs| ensures cs[i].end < cs[j].start {
        if i == 0 { assert cs[j] in rest; }
      }
    }
  }

  lemma {:induction false} NoCalls(per: nat)
    requires per >= 1
    ensures CallsFor(0, per) == 0
  {
  }

  lemma {:induction false} OneMoreCall(lines: nat, per: nat)
    requires lines >= 1 && per >= 1
    ensures CallsFor(lines, per) == 1 + CallsFor(if lines >= per then lines - per else 0, per)
  {
    if lines >= per {
      assert (lines + per - 1) == (lines - per + per - 1) + per;
      DivStep(lines - per + per - 1, per);
    } else {
      NoCalls(per);
      DivStep(lines - 1, per);
    }
  }

  lemma {:induction false} DivStep(n: nat, per: nat)
    requires per >= 1
    ensures (n + per) / per == n / per + 1 && (n < per ==> n / per == 0)
  {
    var q, r := n / per, n % per;
    assert n == q * per + r;
    assert n + per == (q + 1) * per + r;
    Quotient(n + per, per, q + 1, r);
    if n < per { Quotient(n, per, 0, n); }
  }

  /** Where the loop stands after `n` rounds. */
  function Cursor(s: int, e: int, per: int, n: nat): int {
    if n == 0 then s else Min(Cursor(s, e, per, n - 1) + per - 1, e) + 1
  }

  /** The loop is over after `n` rounds. */
  predicate Over(s: int, e: int, per: int, n: nat) { Cursor(s, e, per, n) > e }

  lemma {:induction false} NeverOver(s: int, e: int, per: int, n: nat)
    requires s <= e && per < 1
    ensures !Over(s, e, per, n)
  {
    if n > 0 { NeverOver(s, e, per, n - 1); }
  }

  lemma {:induction false} OnceOver(s: int, e: int, per: int, n: nat) returns (k: nat)
    requires per >= 1
    ensures Over(s, e, per, k) || (k == n && Cursor(s, e, per, n) >= s + n)
  {
    k := n;
    if n > 0 {
      k := OnceOver(s, e, per, n - 1);
      if !Over(s, e, per, k) { k := n; }
    }
  }

  /** On a range that has a line, some round gets the loop past the end exactly when the cap is a line or more. */
  lemma {:induction false} EndsExactly(s: int, e: int, per: int)
    requires s <= e
    ensures (exists n: nat :: Over(s, e, per, n)) <==> per >= 1
  {
    if per < 1 {
      forall n: nat ensures !Over(s, e, per, n) { NeverOver(s, e, per, n); }
    } else {
      var k := OnceOver(s, e, per, e - s + 1);
      assert Over(s, e, per, k);
    }
  }

  method ChunkRange(s: nat, e: nat, fs: FileStats, cfg: Config) returns (out: seq<Span>)
    requires MaxPerCall(fs, cfg) >= 1
    ensures out == Chunks(s, e, MaxPerCall(fs, cfg))
  {
    var per: nat := MaxPerCall(fs, cfg);
    out := [];
    var cur := s;
    while cur <= e
      invariant s <= cur <= e + 1 || (cur == s && out == [])
      invariant out + Chunks(cur, e, per) == Chunks(s, e, per)
      decreases e + 1 - cur
    {
      var end := Min(cur + per - 1, e);
      out := out + [Span(cur, end)];
      cur := end + 1;
    }
  }

  // ----- phase 1: the observed calls -----

  /** Coverage, tokens and calls so far. */
  datatype Paid = Paid(covered: seq<Span>, total: real, kept: nat)

  function Pay(p: Paid, rc: ReadCall, fs: FileStats, cfg: Config): Paid {
    var ret := EffectiveReturned(rc, fs, cfg);
    if ret.None? || Contained(ret.value, p.covered) then p
    else
      Paid(Merged(p.covered + [ret.value]),
           p.total + CostOfChunk(ret.value, fs, rc.intent.Bare?, cfg) + ROUNDTRIP_OVERHEAD, p.kept + 1)
  }

  function PayAll(rcs: seq<ReadCall>, fs: FileStats, cfg: Config): Paid {
    if rcs == [] then Paid([], 0.0, 0) else Pay(PayAll(rcs[..|rcs| - 1], fs, cfg), rcs[|rcs| - 1], fs, cfg)
  }

  /** Some call would return this line. */
  predicate Returned(rcs: seq<ReadCall>, fs: FileStats, cfg: Config, l: nat) {
    exists rc :: rc in rcs && EffectiveReturned(rc, fs, cfg).Some? && HasLine(EffectiveReturned(rc, fs, cfg).value, l)
  }

  /** Dropping fully covered calls loses no line: the coverage is everything that any call would return. */
  lemma {:induction false} PaidCoverage(rcs: seq<ReadCall>, fs: FileStats, cfg: Config)
    ensures Canonical(PayAll(rcs, fs, cfg).covered)
    ensures forall l: nat :: Covers(PayAll(rcs, fs, cfg).covered, l) <==> Returned(rcs, fs, cfg, l)
  {
    hide EffectiveReturned, Merged, CostOfChunk, Covers, HasLine, Canonical;
    if rcs == [] {
      NothingCovered();
      NoSpans();
    } else {
      var n := |rcs| - 1;
      var front, rc := rcs[..n], rcs[n];
      PaidCoverage(front, fs, cfg);
      PayOne(PayAll(front, fs, cfg), rc, fs, cfg);
      assert rcs == front + [rc];
      forall l: nat ensures Returned(rcs, fs, cfg, l) <==> Returned(front, fs, cfg, l) || ReturnedBy(rc, fs, cfg, l) {
        assert forall r :: r in rcs <==> r in front || r == rc;
      }
    }
  }

  /** A call would return a line that none before it would. */
  ghost predicate BringsNew(before: seq<ReadCall>, rc: ReadCall, fs: FileStats, cfg: Config) {
    exists l: nat :: ReturnedBy(rc, fs, cfg, l) && !Returned(before, fs, cfg, l)
  }

  /** A round trip, and for each line returned the file's rate, or 35 percent of it where a summary is made. */
  function PriceOf(rc: ReadCall, fs: FileStats, cfg: Config): real
    requires !rc.intent.Other?
  {
    var lines := |Cover(EffectiveReturned(rc, fs, cfg).value)|;
    var summary := rc.intent.Bare? && 0 <= cfg.summarizeMin <= fs.sizeLines;
    (lines as real) * fs.tokensPerLine * (if summary then 0.35 else 1.0) + 200.0
  }

  ghost function NewCalls(rcs: seq<ReadCall>, fs: FileStats, cfg: Config): nat {
    if rcs == [] then 0
    else
      var front, last := rcs[..|rcs| - 1], rcs[|rcs| - 1];
      NewCalls(front, fs, cfg) + (if BringsNew(front, last, fs, cfg) then 1 else 0)
  }

  ghost function NewPrices(rcs: seq<ReadCall>, fs: FileStats, cfg: Config): real {
    if rcs == [] then 0.0
    else
      var front, last := rcs[..|rcs| - 1], rcs[|rcs| - 1];
      NewPrices(front, fs, cfg)
      + (if BringsNew(front, last, fs, cfg) && !last.intent.Other? then PriceOf(last, fs, cfg) else 0.0)
  }

  lemma {:induction false} PriceIsCost(rc: ReadCall, fs: FileStats, cfg: Config)
    requires !rc.intent.Other?
    ensures var ret := EffectiveReturned(rc, fs, cfg).value;
      CostOfChunk(ret, fs, rc.intent.Bare?, cfg) + ROUNDTRIP_OVERHEAD == PriceOf(rc, fs, cfg)
  {
    CoverSize(EffectiveReturned(rc, fs, cfg).value);
  }

  lemma {:induction false} KeptWhen(before: seq<ReadCall>, rc: ReadCall, fs: FileStats, cfg: Config)
    ensures var ret := EffectiveReturned(rc, fs, cfg);
      BringsNew(before, rc, fs, cfg) <==> ret.Some? && !Contained(ret.value, PayAll(before, fs, cfg).covered)
  {
    hide EffectiveReturned, PayAll, Returned, Contained, Covers, HasLine;
    PaidCoverage(before, fs, cfg);
    var ret := EffectiveReturned(rc, fs, cfg);
    if ret.Some? { ContainedMeans(ret.value, PayAll(before, fs, cfg).covered); }
  }

  /** The first phase keeps and charges exactly the calls that bring a line that no call before them would. */
  lemma {:induction false} PaidExactly(rcs: seq<ReadCall>, fs: FileStats, cfg: Config)
    ensures var p := PayAll(rcs, fs, cfg);
      p.kept == NewCalls(rcs, fs, cfg) && p.total == NewPrices(rcs, fs, cfg)
  {
    hide EffectiveReturned, Contained, CostOfChunk, PriceOf, Merged, BringsNew;
    if rcs != [] {
      var n := |rcs| - 1;
      PaidExactly(rcs[..n], fs, cfg);
      KeptWhen(rcs[..n], rcs[n], fs, cfg);
      if !rcs[n].intent.Other? { PriceIsCost(rcs[n], fs, cfg); }
    }
  }

  predicate ReturnedBy(rc: ReadCall, fs: FileStats, cfg: Config, l: nat) {
    EffectiveReturned(rc, fs, cfg).Some? && HasLine(EffectiveReturned(rc, fs, cfg).value, l)
  }

  lemma {:induction false} NoSpans()
    ensures Canonical([])
  {
  }

  lemma {:induction false} PayOne(p: Paid, rc: ReadCall, fs: FileStats, cfg: Config)
    requires Canonical(p.covered)
    ensures var now := Pay(p, rc, fs, cfg).covered;
      Canonical(now) && forall l: nat :: Covers(now, l) <==> Covers(p.covered, l) || ReturnedBy(rc, fs, cfg, l)
  {
    hide EffectiveReturned, Merged, CostOfChunk, Covers, HasLine;
    var ret := EffectiveReturned(rc, fs, cfg);
    if ret.Some? {
      ContainedMeans(ret.value, p.covered);
      if !Contained(ret.value, p.covered) {
        MoreProper(p.covered, ret.value);
        MergedMeans(p.covered + [ret.value]);
        forall l: nat ensures Covers(p.covered + [ret.value], l) <==> Covers(p.covered, l) || HasLine(ret.value, l) {
          CoversJoin(p.covered, [ret.value], l);
          CoversOne(ret.value, l);
        }
      }
    }
  }

  lemma {:induction false} MoreProper(spans: seq<Span>, s: Span)
    requires Canonical(spans) && Proper(s)
    ensures AllProper(spans) && AllProper(spans + [s])
  {
    forall x | x in spans ensures Proper(x) {
      var i :| 0 <= i < |spans| && spans[i] == x;
    }
  }

  // ----- phase 2: the lines still missing -----

  function Observed(rcs: seq<ReadCall>): (r: seq<Span>)
    ensures AllProper(r)
  {
    if rcs == [] then []
    else
      var rc := rcs[|rcs| - 1];
      Observed(rcs[..|rcs| - 1]) + (if rc.actual.Some? && Proper(rc.actual.value) then [rc.actual.value] else [])
  }

  lemma {:induction false} TotalJoin(a: seq<Span>, b: seq<Span>)
    ensures TotalLines(a + b) == TotalLines(a) + TotalLines(b)
    decreases |b|
  {
    if b == [] {
      assert a + b == a;
    } else {
      var n := |b| - 1;
      assert (a + b)[..|a| + n] == a + b[..n];
      TotalJoin(a, b[..n]);
    }
  }

  lemma {:induction false} ChunksTotal(s: nat, e: nat, per: nat)
    requires per >= 1
    ensures TotalLines(Chunks(s, e, per)) == if s <= e then e + 1 - s else 0
    decreases e + 1 - s
  {
    if s <= e {
      var first, next := Span(s, Min(s + per - 1, e)), Min(s + per - 1, e) + 1;
      ChunksTotal(next, e, per);
      TotalJoin([first], Chunks(next, e, per));
      assert [first][..0] == [] && TotalLines([first]) == TotalLines([]) + LinesOf(first);
    }
  }

  function CallsForAll(gaps: seq<Span>, per: nat): nat
    requires per >= 1
  {
    if gaps == [] then 0 else CallsForAll(gaps[..|gaps| - 1], per) + CallsFor(LinesOf(gaps[|gaps| - 1]), per)
  }

  function Charge(total: real, lines: nat, calls: nat, fs: FileStats): real {
    total + (lines as real) * fs.tokensPerLine + (calls as real) * ROUNDTRIP_OVERHEAD
  }

  lemma {:induction false} ChargeMore(total: real, lines: nat, calls: nat, c: Span, fs: FileStats, cfg: Config)
    requires Proper(c)
    ensures Charge(total, lines, calls, fs) + CostOfChunk(c, fs, false, cfg) + ROUNDTRIP_OVERHEAD
         == Charge(total, lines + LinesOf(c), calls + 1, fs)
  {
    Distribute(lines as real, LinesOf(c) as real, fs.tokensPerLine);
  }

  lemma {:induction false} Distribute(a: real, b: real, t: real)
    ensures (a + b) * t == a * t + b * t
  {
  }

  /** All lines that were seen and that no call delivered, as the one canonical list of them. */
  method FindGaps(needed: seq<Span>, covered: seq<Span>) returns (gaps: seq<Span>)
    requires Canonical(needed) && Canonical(covered)
    ensures Canonical(gaps)
    ensures forall l: nat :: Covers(gaps, l) <==> Covers(needed, l) && !Covers(covered, l)
  {
    hide Covers, HasLine;
    CanonicalProper(covered);
    gaps := [];
    ghost var done: seq<Span> := [];
    NothingCovered();
    for i := 0 to |needed|
      invariant done == needed[..i] && Canonical(gaps)
      invariant forall s :: s in gaps ==> i > 0 && s.end <= needed[i - 1].end
      invariant forall l: nat :: Covers(gaps, l) <==> Covers(done, l) && !Covers(covered, l)
    {
      var missing := Subtract(needed[i], covered);
      WithinSpan(missing, needed[i]);
      if i > 0 { assert needed[i - 1].end + 1 < needed[i].start; }
      CanonicalJoin(gaps, missing, needed[i].start);
      forall l: nat
        ensures Covers(gaps + missing, l) <==> Covers(done + [needed[i]], l) && !Covers(covered, l)
      {
        CoversJoin(gaps, missing, l);
        CoversJoin(done, [needed[i]], l);
        CoversOne(needed[i], l);
      }
      gaps := gaps + missing;
      done := done + [needed[i]];
    }
    assert done == needed;
  }

  lemma {:induction false} CanonicalProper(spans: seq<Span>)
    requires Canonical(spans)
    ensures AllProper(spans)
  {
    forall x | x in spans ensures Proper(x) {
      var i :| 0 <= i < |spans| && spans[i] == x;
    }
  }

  lemma {:induction false} WithinSpan(spans: seq<Span>, whole: Span)
    requires Canonical(spans) && forall l: nat :: Covers(spans, l) ==> HasLine(whole, l)
    ensures forall s :: s in spans ==> whole.start <= s.start && s.end <= whole.end
  {
    forall s | s in spans ensures whole.start <= s.start && s.end <= whole.end {
      var i :| 0 <= i < |spans| && spans[i] == s;
      assert HasLine(s, s.start) && HasLine(s, s.end);
      assert Covers(spans, s.start) && Covers(spans, s.end);
    }
  }

  /** Pay for one gap, chunk by chunk. */
  method FillGap(gap: Span, fs: FileStats, cfg: Config, covered: seq<Span>, total: real, kept: nat)
    returns (moreCovered: seq<Span>, moreTotal: real, moreKept: nat)
    requires Proper(gap) && MaxPerCall(fs, cfg) >= 1 && AllProper(covered)
    ensures AllProper(moreCovered)
    ensures forall l: nat :: Covers(moreCovered, l) <==> Covers(covered, l) || HasLine(gap, l)
    ensures moreKept == kept + CallsFor(LinesOf(gap), MaxPerCall(fs, cfg))
    ensures moreTotal == Charge(total, LinesOf(gap), CallsFor(LinesOf(gap), MaxPerCall(fs, cfg)), fs)
  {
    hide Covers, HasLine, CostOfChunk, Charge, TotalLines;
    var chunks := ChunkRange(gap.start, gap.end, fs, cfg);
    ChunksCover(gap.start, gap.end, MaxPerCall(fs, cfg));
    ChunksTotal(gap.start, gap.end, MaxPerCall(fs, cfg));
    moreCovered, moreTotal, moreKept := covered, total, kept;
    ghost var done: seq<Span> := [];
    NothingCovered();
    NothingCharged(total, fs);
    for i := 0 to |chunks|
      invariant done == chunks[..i] && AllProper(moreCovered)
      invariant forall l: nat :: Covers(moreCovered, l) <==> Covers(covered, l) || Covers(done, l)
      invariant moreKept == kept + i && moreTotal == Charge(total, TotalLines(done), i, fs)
    {
      var c := chunks[i];
      assert c in chunks;
      ChargeMore(total, TotalLines(done), i, c, fs, cfg);
      TotalOne(done, c);
      forall l: nat ensures Covers(moreCovered + [c], l) <==> Covers(covered, l) || Covers(done + [c], l) {
        CoversJoin(moreCovered, [c], l);
        CoversJoin(done, [c], l);
      }
      moreTotal := moreTotal + CostOfChunk(c, fs, false, cfg);
      moreTotal := moreTotal + ROUNDTRIP_OVERHEAD;
      moreKept := moreKept + 1;
      moreCovered := moreCovered + [c];
      done := done + [c];
    }
    assert done == chunks;
    forall l: nat ensures HasLine(gap, l) <==> Covers(chunks, l) { LineIn(gap, l); }
  }

  lemma {:induction false} LineIn(s: Span, l: nat)
    ensures HasLine(s, l) <==> s.start <= l <= s.end
  {
  }

  lemma {:induction false} NothingCharged(total: real, fs: FileStats)
    ensures Charge(total, 0, 0, fs) == total && TotalLines([]) == 0
  {
  }

  lemma {:induction false} TotalOne(spans: seq<Span>, s: Span)
    ensures TotalLines(spans + [s]) == TotalLines(spans) + LinesOf(s)
  {
    assert (spans + [s])[..|spans|] == spans;
  }

  lemma {:induction false} ChargeTwice(total: real, a: nat, x: nat, b: nat, y: nat, fs: FileStats)
    ensures Charge(Charge(total, a, x, fs), b, y, fs) == Charge(total, a + b, x + y, fs)
  {
    Distribute(a as real, b as real, fs.tokensPerLine);
  }

  lemma {:induction false} CallsOneMore(gaps: seq<Span>, g: Span, per: nat)
    requires per >= 1
    ensures CallsForAll(gaps + [g], per) == CallsForAll(gaps, per) + CallsFor(LinesOf(g), per)
  {
    assert (gaps + [g])[..|gaps|] == gaps;
  }

  /** The canonical list of the lines that were seen and that no call of the first phase delivered. */
  ghost predicate Missing(gaps: seq<Span>, rcs: seq<ReadCall>, covered: seq<Span>) {
    Canonical(gaps) && forall l: nat :: Covers(gaps, l) <==> Covers(Observed(rcs), l) && !Covers(covered, l)
  }

  lemma {:induction false} MissingIsOne(a: seq<Span>, b: seq<Span>, rcs: seq<ReadCall>, covered: seq<Span>)
    requires Missing(a, rcs, covered) && Missing(b, rcs, covered)
    ensures a == b
  {
    hide Covers;
    CanonicalUnique(a, b);
  }

  /**
   Replay one session's reads of one file. On top of the observed calls it charges exactly the lines that were
   seen and are still missing, each once, and one round trip per chunk of each gap; in the end every line that
   was seen is covered.
   */
  method ReplayPair(rcs: seq<ReadCall>, fs: FileStats, cfg: Config)
    returns (total: real, kept: nat, ghost coverage: seq<Span>)
    requires MaxPerCall(fs, cfg) >= 1
    ensures exists gaps :: Missing(gaps, rcs, PayAll(rcs, fs, cfg).covered)
    ensures forall gaps :: Missing(gaps, rcs, PayAll(rcs, fs, cfg).covered) ==>
      var p, calls := PayAll(rcs, fs, cfg), CallsForAll(gaps, MaxPerCall(fs, cfg));
      kept == p.kept + calls && total == Charge(p.total, TotalLines(gaps), calls, fs)
    ensures forall l: nat :: Covers(coverage, l) <==> Returned(rcs, fs, cfg, l) || Covers(Observed(rcs), l)
  {
    hide Covers, CostOfChunk, Charge, TotalLines, CallsForAll, EffectiveReturned, Merged, MaxPerCall, Contained,
         Returned;
    var per: nat := MaxPerCall(fs, cfg);
    var simulated, seen := [], [];
    total, kept := 0.0, 0;
    assert rcs[..0] == [];
    for i := 0 to |rcs|
      invariant seen == Observed(rcs[..i]) && PayAll(rcs[..i], fs, cfg) == Paid(simulated, total, kept)
    {
      assert rcs[..i + 1][..i] == rcs[..i];
      var rc := rcs[i];
      if rc.actual.Some? && rc.actual.value.end >= rc.actual.value.start { seen := seen + [rc.actual.value]; }
      var ret := EffectiveReturned(rc, fs, cfg);
      if ret.None? { continue; }
      var inside := IsContained(ret.value, simulated);
      if inside { continue; }
      total := total + CostOfChunk(ret.value, fs, rc.intent.Bare?, cfg);
      total := total + ROUNDTRIP_OVERHEAD;
      kept := kept + 1;
      simulated := simulated + [ret.value];
      simulated := Merge(simulated);
    }
    assert rcs[..|rcs|] == rcs;
    ghost var p := PayAll(rcs, fs, cfg);
    PaidCoverage(rcs, fs, cfg);
    MergedMeans(Observed(rcs));
    seen := Merge(seen);
    var missing := FindGaps(seen, simulated);
    assert Missing(missing, rcs, p.covered);
    CanonicalProper(simulated);
    CanonicalProper(missing);
    NothingCharged(total, fs);
    NoCallsForNone(per);
    ghost var done: seq<Span> := [];
    NothingCovered();
    for i := 0 to |missing|
      invariant done == missing[..i] && AllProper(simulated)
      invariant forall l: nat :: Covers(simulated, l) <==> Covers(p.covered, l) || Covers(done, l)
      invariant kept == p.kept + CallsForAll(done, per)
      invariant total == Charge(p.total, TotalLines(done), CallsForAll(done, per), fs)
    {
      var gap := missing[i];
      assert gap in missing;
      ghost var was := simulated;
      simulated, total, kept := FillGap(gap, fs, cfg, simulated, total, kept);
      ChargeTwice(p.total, TotalLines(done), CallsForAll(done, per), LinesOf(gap), CallsFor(LinesOf(gap), per), fs);
      TotalOne(done, gap);
      CallsOneMore(done, gap, per);
      MergedMeans(simulated);
      forall l: nat ensures Covers(done + [gap], l) <==> Covers(done, l) || HasLine(gap, l) {
        CoversJoin(done, [gap], l);
        CoversOne(gap, l);
      }
      simulated := Merge(simulated);
      CanonicalProper(simulated);
      done := done + [gap];
    }
    assert done == missing;
    coverage := simulated;
    forall gaps | Missing(gaps, rcs, p.covered) ensures gaps == missing {
      MissingIsOne(gaps, missing, rcs, p.covered);
    }
  }

  lemma {:induction false} NoCallsForNone(per: nat)
    requires per >= 1
    ensures CallsForAll([], per) == 0
  {
  }

  /** The lines charged for are as many as are missing. */
  lemma {:induction false} TotalIsCount(spans: seq<Span>, bound: nat)
    requires Canonical(spans) && forall s :: s in spans ==> s.end < bound
    ensures TotalLines(spans) == |set l: nat | l < bound && Covers(spans, l)|
  {
    hide Covers;
    if spans == [] {
      NothingCovered();
      assert (set l: nat | l < bound && Covers(spans, l)) == {};
    } else {
      var n := |spans| - 1;
      var front, last := spans[..n], spans[n];
      assert spans == front + [last];
      assert forall s :: s in front ==> s in spans;
      assert last in spans;
      TotalIsCount(front, bound);
      CoverSize(last);
      var before, all := set l: nat | l < bound && Covers(front, l), set l: nat | l < bound && Covers(spans, l);
      forall l: nat ensures Covers(spans, l) <==> Covers(front, l) || HasLine(last, l) {
        CoversJoin(front, [last], l);
        CoversOne(last, l);
      }
      assert all == before + Cover(last);
      FrontEnds(spans, front);
      assert before !! Cover(last);
    }
  }

  lemma {:induction false} FrontEnds(spans: seq<Span>, front: seq<Span>)
    requires Canonical(spans) && spans != [] && front == spans[..|spans| - 1]
    ensures forall l: nat :: Covers(front, l) ==> l < spans[|spans| - 1].start
  {
    var n := |spans| - 1;
    forall l: nat | Covers(front, l) ensures l < spans[n].start {
      var s :| s in front && HasLine(s, l);
      var i :| 0 <= i < n && front[i] == s;
      assert spans[i].end + 1 < spans[n].start;
    }
  }
}
