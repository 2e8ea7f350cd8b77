/**
 Replaying grouped reads: a bounded read is skipped when all it asks for was delivered before.
 */
module ReadReplay {
  import opened Basics
  import opened StableSorting
  import opened LineSpans

  // ----- interval lists -----

  /** In order with a line left out between any two; a span may be empty. */
  predicate Loose(spans: seq<Span>) {
    && (forall i :: 0 <= i < |spans| ==> spans[i].start <= spans[i].end + 1)
    && (forall i, j :: 0 <= i < j < |spans| ==> spans[i].end + 1 < spans[j].start)
  }

  predicate NoneEmpty(spans: seq<Span>) { forall s :: s in spans ==> Proper(s) }

  /** Without empty spans this is the canonical form. */
  lemma {:induction false} CanonicalIsLoose(spans: seq<Span>)
    ensures Canonical(spans) <==> Loose(spans) && NoneEmpty(spans)
  {
    if Loose(spans) && NoneEmpty(spans) {
      assert forall i :: 0 <= i < |spans| ==> spans[i] in spans;
    }
    if Canonical(spans) {
      forall s | s in spans ensures Proper(s) {
        var i :| 0 <= i < |spans| && spans[i] == s;
      }
    }
  }

  predicate FullyCovered(spans: seq<Span>, target: Span) {
    forall l: nat :: target.start <= l <= target.end && HasLine(target, l) ==> Covers(spans, l)
  }

  lemma {:induction false} BehindLoose(spans: seq<Span>, i: nat)
    requires Loose(spans) && i < |spans|
    ensures !Covers(spans, spans[i].end + 1)
  {
    forall t | t in spans ensures !HasLine(t, spans[i].end + 1) {
      var j :| 0 <= j < |spans| && spans[j] == t;
      assert i < j ==> spans[i].end + 1 < spans[j].start;
      assert j < i ==> spans[j].end + 1 < spans[i].start;
    }
  }

  /** With its early exit, the scan answers whether every requested line is in the union. */
  method IsCovered(intervals: seq<Span>, target: Span) returns (r: bool)
    requires Loose(intervals) && Proper(target)
    ensures r <==> FullyCovered(intervals, target)
  {
    hide Covers;
    for i := 0 to |intervals|
      invariant forall j :: 0 <= j < i ==> !(intervals[j].start <= target.start && target.end <= intervals[j].end)
      invariant forall j :: 0 <= j < i ==> intervals[j].start <= target.start
    {
      var iv := intervals[i];
      if iv.start <= target.start && target.end <= iv.end {
        InsideCovered(intervals, i, target);
        return true;
      }
      if iv.start > target.start {
        NotCovered(intervals, i, target);
        return false;
      }
    }
    NotCovered(intervals, |intervals|, target);
    return false;
  }

  lemma {:induction false} InsideCovered(spans: seq<Span>, i: nat, target: Span)
    requires i < |spans| && spans[i].start <= target.start && target.end <= spans[i].end
    ensures FullyCovered(spans, target)
  {
    assert spans[i] in spans;
    forall l: nat | target.start <= l <= target.end ensures Covers(spans, l) { assert HasLine(spans[i], l); }
  }

  /** No span up to `n` holds the target and all others begin behind its first line. */
  lemma {:induction false} NotCovered(spans: seq<Span>, n: nat, target: Span)
    requires Loose(spans) && Proper(target) && n <= |spans| && (n < |spans| ==> spans[n].start > target.start)
    requires forall j :: 0 <= j < n ==> !(spans[j].start <= target.start && target.end <= spans[j].end)
    ensures !FullyCovered(spans, target)
  {
    assert HasLine(target, target.start);
    if Covers(spans, target.start) {
      var s :| s in spans && HasLine(s, target.start);
      var j :| 0 <= j < |spans| && spans[j] == s;
      assert n < j ==> spans[n].end + 1 < spans[j].start;
      BehindLoose(spans, j);
      assert HasLine(target, spans[j].end + 1);
    }
  }

  /** The state while one span is inserted: what lies before it, the span as grown so far, and what is placed. */
  ghost predicate Adding(ivs: seq<Span>, i: nat, item: Span, out: seq<Span>, s: nat, e: nat, placed: bool) {
    && i <= |ivs| && Loose(ivs) && Loose(out) && s <= e + 1
    && (forall o, j :: o in out && i <= j < |ivs| ==> o.end + 1 < ivs[j].start)
    && (placed ==> forall j :: i <= j < |ivs| ==> e + 1 < ivs[j].start)
    && (!placed ==> forall o :: o in out ==> o.end + 1 < s)
    && (forall l: nat :: Covers(out, l) || (!placed && HasLine(Span(s, e), l))
         <==> Covers(ivs[..i], l) || HasLine(item, l))
  }

  lemma {:induction false} LooseMore(out: seq<Span>, x: Span)
    requires Loose(out) && x.start <= x.end + 1 && forall o :: o in out ==> o.end + 1 < x.start
    ensures Loose(out + [x])
  {
    forall i, j | 0 <= i < j < |out + [x]| ensures (out + [x])[i].end + 1 < (out + [x])[j].start {
      assert j == |out| ==> out[i] in out;
    }
  }

  lemma {:induction false} AddStep(ivs: seq<Span>, i: nat, next: nat, item: Span, out: seq<Span>, s: nat, e: nat,
    placed: bool)
    requires Adding(ivs, i, item, out, s, e, placed) && i < |ivs| && next == i + 1
    ensures var a, b := ivs[i].start, ivs[i].end;
      if b + 1 < s then !placed ==> Adding(ivs, next, item, out + [ivs[i]], s, e, placed)
      else if e + 1 < a then
        Adding(ivs, next, item, (if placed then out else out + [Span(s, e)]) + [ivs[i]], s, e, true)
      else !placed && Adding(ivs, next, item, out, Min(s, a), Max(e, b), placed)
    ensures placed ==> ivs[i].end + 1 >= s
  {
    hide Covers, HasLine;
    var iv := ivs[i];
    var done := ivs[..i];
    assert ivs[..next] == done + [iv];
    forall l: nat ensures Covers(ivs[..next], l) <==> Covers(done, l) || HasLine(iv, l) {
      CoversJoin(done, [iv], l);
      CoversOne(iv, l);
    }
    var mine := Span(s, e);
    forall l: nat ensures Covers(out + [iv], l) <==> Covers(out, l) || HasLine(iv, l) {
      CoversJoin(out, [iv], l);
      CoversOne(iv, l);
    }
    forall l: nat ensures Covers(out + [mine], l) <==> Covers(out, l) || HasLine(mine, l) {
      CoversJoin(out, [mine], l);
      CoversOne(mine, l);
    }
    forall l: nat ensures Covers(out + [mine] + [iv], l) <==> Covers(out + [mine], l) || HasLine(iv, l) {
      CoversJoin(out + [mine], [iv], l);
      CoversOne(iv, l);
    }
    if !placed && !(iv.end + 1 < s) && !(e + 1 < iv.start) {
      forall l: nat ensures HasLine(Span(Min(s, iv.start), Max(e, iv.end)), l) <==> HasLine(mine, l) || HasLine(iv, l) {
        JoinedLines(mine, iv, l);
      }
    }
    if iv.end + 1 < s {
      if !placed { LooseMore(out, iv); }
    } else if e + 1 < iv.start {
      if placed {
        LooseMore(out, iv);
      } else {
        LooseMore(out, mine);
        LooseMore(out + [mine], iv);
      }
    }
  }

  /** Spans that touch hold together the lines from the first start to the last end. */
  lemma {:induction false} JoinedLines(x: Span, y: Span, l: nat)
    requires x.start <= x.end + 1 && y.start <= y.end + 1 && x.start <= y.end + 1 && y.start <= x.end + 1
    ensures HasLine(Span(Min(x.start, y.start), Max(x.end, y.end)), l) <==> HasLine(x, l) || HasLine(y, l)
  {
  }

  /** Insert a span, joining it with all it touches: exactly the union, in the same form. */
  method AddInterval(intervals: seq<Span>, item: Span) returns (out: seq<Span>)
    requires Loose(intervals) && item.start <= item.end + 1
    ensures Loose(out) && forall l: nat :: Covers(out, l) <==> Covers(intervals, l) || HasLine(item, l)
    ensures Canonical(intervals) && Proper(item) ==> Canonical(out)
  {
    hide Covers, HasLine, Loose, Canonical;
    CanonicalIsLoose(intervals);
    var s: nat, e: nat, placed := item.start, item.end, false;
    out := [];
    AddStart(intervals, item);
    for i := 0 to |intervals|
      invariant Adding(intervals, i, item, out, s, e, placed)
      invariant Canonical(intervals) && Proper(item) ==> NoneEmpty(out) && Proper(Span(s, e))
    {
      AddStep(intervals, i, i + 1, item, out, s, e, placed);
      hide Adding;
      var iv := intervals[i];
      if iv.end + 1 < s {
        out := out + [iv];
      } else if e + 1 < iv.start {
        if !placed {
          out := out + [Span(s, e)];
          placed := true;
        }
        out := out + [iv];
      } else {
        s := Min(s, iv.start);
        e := Max(e, iv.end);
      }
    }
    AddEnd(intervals, item, out, s, e, placed);
    if !placed { out := out + [Span(s, e)]; }
    CanonicalIsLoose(out);
  }

  lemma {:induction false} AddStart(ivs: seq<Span>, item: Span)
    requires Loose(ivs) && item.start <= item.end + 1
    ensures Adding(ivs, 0, item, [], item.start, item.end, false)
  {
    assert Span(item.start, item.end) == item;
  }

  lemma {:induction false} AddEnd(ivs: seq<Span>, item: Span, out: seq<Span>, s: nat, e: nat, placed: bool)
    requires Adding(ivs, |ivs|, item, out, s, e, placed)
    ensures var r := if placed then out else out + [Span(s, e)];
      Loose(r) && forall l: nat :: Covers(r, l) <==> Covers(ivs, l) || HasLine(item, l)
  {
    hide Covers, HasLine;
    assert ivs[..|ivs|] == ivs;
    if !placed {
      LooseMore(out, Span(s, e));
      forall l: nat ensures Covers(out + [Span(s, e)], l) <==> Covers(out, l) || HasLine(Span(s, e), l) {
        CoversJoin(out, [Span(s, e)], l);
        CoversOne(Span(s, e), l);
      }
    }
  }

  // ----- calls -----

  datatype Kind = Explicit(start: nat, end: nat) | OpenEnded(start: nat) | Default | Unbounded

  datatype ReadCall = ReadCall(kind: Kind, argTokens: nat, resultTokens: nat, tokenPerLine: real)

  datatype Config = Config(default: nat, maxLines: nat, leading: nat, trailing: nat)

  const CURRENT_MAX_BYTES := 50 * 1024

  /** A default page has a line; an explicit range, as the selector parser reads it, does not end before it starts. */
  predicate ValidCall(call: ReadCall, cfg: Config) {
    cfg.default >= 1 && (call.kind.Explicit? ==> call.kind.start <= call.kind.end)
  }

  function RequestedInterval(call: ReadCall, cfg: Config): (r: Option<Span>)
    requires ValidCall(call, cfg)
    ensures r.None? <==> call.kind.Unbounded?
    ensures r.Some? ==> Proper(r.value)
  {
    match call.kind
    case Explicit(start, end) => Some(Span(start, end))
    case OpenEnded(start) => Some(Span(start, start + cfg.default - 1))
    case Default => Some(Span(1, cfg.default))
    case Unbounded => None
  }

  function LeadingStart(start: nat, cfg: Config): nat {
    if start > 1 then Max(1, start - cfg.leading) else 1
  }

  function DeliveredLines(call: ReadCall, cfg: Config): int {
    match call.kind
    case Explicit(start, end) =>
      Min(Max(1, end - start + 1) + (start - LeadingStart(start, cfg)) + cfg.trailing, cfg.maxLines)
    case OpenEnded(start) => Min(cfg.default + (start - LeadingStart(start, cfg)), cfg.maxLines)
    case Default => Min(cfg.default, cfg.maxLines)
    case Unbounded => 0
  }

  /** What a call returns, with the lines around it; nothing when it asks only for a line before the first. */
  function DeliveredInterval(call: ReadCall, cfg: Config): (r: Option<Span>)
    requires ValidCall(call, cfg)
    ensures r.None? <==> call.kind.Unbounded?
    ensures r.Some? ==> 1 <= r.value.start <= r.value.end + 1
  {
    var lines := DeliveredLines(call, cfg);
    match call.kind
    case Explicit(start, _) => Some(Span(LeadingStart(start, cfg), LeadingStart(start, cfg) + lines - 1))
    case OpenEnded(start) => Some(Span(LeadingStart(start, cfg), LeadingStart(start, cfg) + lines - 1))
    case Default => Some(Span(1, lines))
    case Unbounded => None
  }

  /** Under a cap that is not reached, a call delivers all it asks for from line 1 on. */
  lemma {:induction false} DeliveredHoldsRequested(call: ReadCall, cfg: Config, l: nat)
    requires ValidCall(call, cfg) && !call.kind.Unbounded? && DeliveredLines(call, cfg) < cfg.maxLines
    requires 1 <= l && HasLine(RequestedInterval(call, cfg).value, l)
    ensures HasLine(DeliveredInterval(call, cfg).value, l)
  {
  }

  /** The first line of what a bounded call wants, with the context in front of it. */
  function WantedFrom(call: ReadCall, cfg: Config): nat {
    match call.kind
    case Explicit(start, _) => Max(1, start - cfg.leading)
    case OpenEnded(start) => Max(1, start - cfg.leading)
    case _ => 1
  }

  /** A line that the call asks for or that is context of what it asks for. */
  predicate Wants(call: ReadCall, cfg: Config, l: nat) {
    match call.kind
    case Explicit(start, end) => l >= 1 && l + cfg.leading >= start && l <= end + cfg.trailing
    case OpenEnded(start) => l >= 1 && l + cfg.leading >= start && l < start + cfg.default
    case Default => 1 <= l <= cfg.default
    case Unbounded => false
  }

  /** A bounded call delivers the lines it wants, from the first on, as many as a page holds. */
  lemma {:induction false} DeliversExactly(call: ReadCall, cfg: Config, l: nat)
    requires ValidCall(call, cfg) && !call.kind.Unbounded?
    ensures HasLine(DeliveredInterval(call, cfg).value, l)
       <==> Wants(call, cfg, l) && l < WantedFrom(call, cfg) + cfg.maxLines
    ensures Wants(call, cfg, l) ==> l >= WantedFrom(call, cfg)
  {
  }

  lemma {:induction false} DeliveredCount(call: ReadCall, cfg: Config)
    requires ValidCall(call, cfg) && !call.kind.Unbounded?
    ensures DeliveredLines(call, cfg) == |Cover(DeliveredInterval(call, cfg).value)|
  {
    var s := DeliveredInterval(call, cfg).value;
    if Proper(s) {
      CoverSize(s);
    } else {
      assert Cover(s) == {};
    }
  }

  // ----- skipping -----

  predicate AllValid(group: seq<ReadCall>, cfg: Config) { forall c :: c in group ==> ValidCall(c, cfg) }

  /** A line that some paid bounded call before the `n`-th delivered. */
  ghost predicate DeliveredBefore(group: seq<ReadCall>, cfg: Config, n: nat, l: nat)
    requires AllValid(group, cfg) && n <= |group|
    decreases n, 0
  {
    exists j :: 0 <= j < n && group[j] in group && !group[j].kind.Unbounded? && !Skips(group, cfg, j)
      && HasLine(DeliveredInterval(group[j], cfg).value, l)
  }

  /** A bounded read, not the first, all of whose lines were delivered before. */
  ghost predicate Skips(group: seq<ReadCall>, cfg: Config, i: nat)
    requires AllValid(group, cfg) && i < |group|
    decreases i, 1
  {
    assert group[i] in group;
    i > 0 && !group[i].kind.Unbounded?
    && forall l: nat :: HasLine(RequestedInterval(group[i], cfg).value, l) ==> DeliveredBefore(group, cfg, i, l)
  }

  ghost function SkippedIn(group: seq<ReadCall>, cfg: Config, n: nat): nat
    requires AllValid(group, cfg) && n <= |group|
  {
    if n == 0 then 0 else SkippedIn(group, cfg, n - 1) + (if Skips(group, cfg, n - 1) then 1 else 0)
  }

  function LineTokens(call: ReadCall, cfg: Config): real { call.tokenPerLine * (DeliveredLines(call, cfg) as real) }

  function ByteBudget(call: ReadCall, cfg: Config): real {
    Max(CURRENT_MAX_BYTES, DeliveredLines(call, cfg) * 512) as real
  }

  /** The lines of a bounded call are more bytes than its page may have. */
  predicate IsBytesLimited(call: ReadCall, cfg: Config) {
    !call.kind.Unbounded? && LineTokens(call, cfg) * 4.0 > ByteBudget(call, cfg)
  }

  /** Tokens of one paid call. */
  function CostOf(call: ReadCall, cfg: Config): real {
    if call.kind.Unbounded? then (call.argTokens + call.resultTokens) as real
    else
      (call.argTokens as real)
      + (if IsBytesLimited(call, cfg) then ByteBudget(call, cfg) / 4.0 else LineTokens(call, cfg))
  }

  /** An explicit range that with the lines around it is longer than a page, and fills one. */
  predicate IsTruncated(call: ReadCall, cfg: Config) {
    && call.kind.Explicit? && DeliveredLines(call, cfg) >= cfg.maxLines
    && RequestedLength(call.kind.start, call.kind.end) + cfg.leading + cfg.trailing > cfg.maxLines
  }

  /** Line 0 counts as line 1. */
  function RequestedLength(start: nat, end: nat): int {
    var from, to := if start == 0 then 1 else start, if end != 0 then end else if start != 0 then start else 1;
    Max(1, to - from + 1)
  }

  /**
   A bounded call is charged for its argument and for each line it delivers, up to a quarter of a token for each byte
   that the page may have; one without a bound for its argument and what it returned.
   */
  lemma {:induction false} CostExactly(call: ReadCall, cfg: Config)
    requires ValidCall(call, cfg)
    ensures call.kind.Unbounded? ==>
      CostOf(call, cfg) == (call.argTokens as real) + (call.resultTokens as real) && !IsBytesLimited(call, cfg)
    ensures !call.kind.Unbounded? ==>
      var n := |Cover(DeliveredInterval(call, cfg).value)|;
      var full, most := call.tokenPerLine * (n as real), (Max(50 * 1024, n * 512) as real) / 4.0;
      && CostOf(call, cfg) == (call.argTokens as real) + (if full <= most then full else most)
      && (IsBytesLimited(call, cfg) <==> full > most)
  {
    hide DeliveredLines, DeliveredInterval, Cover;
    if !call.kind.Unbounded? {
      DeliveredCount(call, cfg);
      var n: nat := DeliveredLines(call, cfg);
      QuarterOf(call.tokenPerLine * (n as real), Max(50 * 1024, n * 512) as real);
    }
  }

  lemma {:induction false} QuarterOf(a: real, b: real)
    ensures a * 4.0 > b <==> a > b / 4.0
  {
  }

  /**
   A call counts as truncated exactly when it loses a line it wants, or fills its page to the last line while the
   context in front of it is cut off by the start of the file, or it ends before that.
   */
  lemma {:induction false} TruncatedWhen(call: ReadCall, cfg: Config)
    requires ValidCall(call, cfg)
    ensures IsTruncated(call, cfg) <==>
      && call.kind.Explicit?
      && ((exists l: nat :: Wants(call, cfg, l) && !HasLine(DeliveredInterval(call, cfg).value, l))
          || (|Cover(DeliveredInterval(call, cfg).value)| == cfg.maxLines
              && (Max(call.kind.start, 1) <= cfg.leading || call.kind.end == 0)))
  {
    if call.kind.Explicit? {
      DeliveredCount(call, cfg);
      var last := call.kind.end + cfg.trailing;
      DeliversExactly(call, cfg, last);
      assert last > 0 ==> Wants(call, cfg, last);
      if IsTruncated(call, cfg) {
        DeliversExactly(call, cfg, last);
      } else {
        forall l: nat | Wants(call, cfg, l) ensures HasLine(DeliveredInterval(call, cfg).value, l) {
          DeliversExactly(call, cfg, l);
        }
      }
    }
  }

  /** Paid calls among the first `n` that meet a test. */
  ghost function PaidWhere(group: seq<ReadCall>, cfg: Config, n: nat, test: ReadCall -> bool): nat
    requires AllValid(group, cfg) && n <= |group|
  {
    if n == 0 then 0
    else PaidWhere(group, cfg, n - 1, test) + (if !Skips(group, cfg, n - 1) && test(group[n - 1]) then 1 else 0)
  }

  function Truncated(cfg: Config): ReadCall -> bool { (c: ReadCall) => IsTruncated(c, cfg) }

  function BytesLimited(cfg: Config): ReadCall -> bool { (c: ReadCall) => IsBytesLimited(c, cfg) }

  /** Tokens of the calls without a bound. */
  function RawTokens(group: seq<ReadCall>, cfg: Config): real {
    if group == [] then 0.0
    else
      var last := group[|group| - 1];
      RawTokens(group[..|group| - 1], cfg) + (if last.kind.Unbounded? then CostOf(last, cfg) else 0.0)
  }

  ghost function TokensIn(group: seq<ReadCall>, cfg: Config, n: nat): real
    requires AllValid(group, cfg) && n <= |group|
  {
    if n == 0 then 0.0
    else TokensIn(group, cfg, n - 1) + (if Skips(group, cfg, n - 1) then 0.0 else CostOf(group[n - 1], cfg))
  }

  predicate SelectorFirst(group: seq<ReadCall>)
    requires group != []
  {
    group[0].kind.Explicit? || group[0].kind.OpenEnded?
  }

  /** One call was enough: the group has no other, or all other bounded requests lie in what the first delivered. */
  predicate FirstSuffices(group: seq<ReadCall>, cfg: Config)
    requires group != [] && AllValid(group, cfg)
  {
    SelectorFirst(group) && (|group| == 1 || forall j :: 1 <= j < |group| ==> WithinFirst(group, cfg, j))
  }

  predicate WithinFirst(group: seq<ReadCall>, cfg: Config, j: nat)
    requires j < |group| && AllValid(group, cfg)
  {
    assert group[0] in group && group[j] in group;
    group[0].kind.Unbounded? || group[j].kind.Unbounded?
    || FullyCovered([DeliveredInterval(group[0], cfg).value], RequestedInterval(group[j], cfg).value)
  }

  // ----- the replay -----

  datatype Totals = Totals(tokens: real, calls: nat, skipped: nat, truncations: nat, bytesLimited: nat,
    selectorTokens: real, selectorCalls: nat, selectorSkipped: nat,
    selectorGroups: nat, singleCallGroups: nat, coveredByFirst: nat,
    defaultTokens: real, defaultCalls: nat, defaultSkipped: nat, rawTokens: real, rawCalls: nat)

  const NOTHING := Totals(0.0, 0, 0, 0, 0, 0.0, 0, 0, 0, 0, 0, 0.0, 0, 0, 0.0, 0)

  function CountUnbounded(group: seq<ReadCall>): nat {
    if group == [] then 0
    else CountUnbounded(group[..|group| - 1]) + (if group[|group| - 1].kind.Unbounded? then 1 else 0)
  }

  /** What the first `n` calls of a group add to the totals. */
  ghost function After(t: Totals, group: seq<ReadCall>, cfg: Config, n: nat): Totals
    requires group != [] && AllValid(group, cfg) && n <= |group|
  {
    var skipped := SkippedIn(group, cfg, n);
    SkippedBound(group, cfg, n);
    var paid := n - skipped;
    var selector, default := SelectorFirst(group), group[0].kind.Default?;
    var tokens := TokensIn(group, cfg, n);
    t.(tokens := t.tokens + tokens,
       calls := t.calls + paid, skipped := t.skipped + skipped,
       truncations := t.truncations + PaidWhere(group, cfg, n, Truncated(cfg)),
       bytesLimited := t.bytesLimited + PaidWhere(group, cfg, n, BytesLimited(cfg)),
       selectorTokens := t.selectorTokens + (if selector then tokens else 0.0),
       defaultTokens := t.defaultTokens + (if default then tokens else 0.0),
       rawTokens := t.rawTokens + RawTokens(group[..n], cfg),
       selectorCalls := t.selectorCalls + (if selector then paid else 0),
       selectorSkipped := t.selectorSkipped + (if selector then skipped else 0),
       defaultCalls := t.defaultCalls + (if default then paid else 0),
       defaultSkipped := t.defaultSkipped + (if default then skipped else 0),
       rawCalls := t.rawCalls + CountUnbounded(group[..n]))
  }

  lemma {:induction false} SkippedBound(group: seq<ReadCall>, cfg: Config, n: nat)
    requires AllValid(group, cfg) && n <= |group|
    ensures SkippedIn(group, cfg, n) <= n
  {
    hide Skips;
    if n > 0 { SkippedBound(group, cfg, n - 1); }
  }

  ghost function AfterGroup(t: Totals, group: seq<ReadCall>, cfg: Config): Totals
    requires group != [] && AllValid(group, cfg)
  {
    var t1 := After(t, group, cfg, |group|);
    t1.(selectorGroups := t1.selectorGroups + (if SelectorFirst(group) then 1 else 0),
        singleCallGroups := t1.singleCallGroups + (if SelectorFirst(group) && |group| == 1 then 1 else 0),
        coveredByFirst := t1.coveredByFirst + (if FirstSuffices(group, cfg) then 1 else 0))
  }

  predicate ValidGroups(groups: seq<seq<ReadCall>>, cfg: Config) {
    forall g :: g in groups ==> g != [] && AllValid(g, cfg)
  }

  ghost function AfterGroups(groups: seq<seq<ReadCall>>, cfg: Config): Totals
    requires ValidGroups(groups, cfg)
  {
    if groups == [] then NOTHING
    else
      var front := groups[..|groups| - 1];
      assert ValidGroups(front, cfg) by { assert forall g :: g in front ==> g in groups; }
      assert groups[|groups| - 1] in groups;
      AfterGroup(AfterGroups(front, cfg), groups[|groups| - 1], cfg)
  }

  function CountCalls(groups: seq<seq<ReadCall>>): nat {
    if groups == [] then 0 else CountCalls(groups[..|groups| - 1]) + |groups[|groups| - 1]|
  }

  /** Every read is either paid or skipped. */
  lemma {:induction false} PaidPlusSkipped(groups: seq<seq<ReadCall>>, cfg: Config)
    requires ValidGroups(groups, cfg)
    ensures var t := AfterGroups(groups, cfg);
      && t.calls + t.skipped == CountCalls(groups)
      && t.selectorCalls + t.defaultCalls <= t.calls && t.selectorSkipped + t.defaultSkipped <= t.skipped
      && t.singleCallGroups <= t.coveredByFirst <= t.selectorGroups <= |groups|
  {
    hide SkippedIn, TokensIn, FirstSuffices, CountUnbounded;
    if groups != [] {
      var front, group := groups[..|groups| - 1], groups[|groups| - 1];
      assert group in groups;
      assert ValidGroups(front, cfg) by { assert forall g :: g in front ==> g in groups; }
      PaidPlusSkipped(front, cfg);
      SkippedBound(group, cfg, |group|);
      SufficesSelector(group, cfg);
    }
  }

  lemma {:induction false} SufficesSelector(group: seq<ReadCall>, cfg: Config)
    requires group != [] && AllValid(group, cfg)
    ensures FirstSuffices(group, cfg) ==> SelectorFirst(group)
    ensures SelectorFirst(group) && |group| == 1 ==> FirstSuffices(group, cfg)
  {
  }

  // ----- totals by what a group begins with -----

  datatype Lead = SelectorLed | DefaultLed | RawLed

  function LeadOf(call: ReadCall): Lead {
    match call.kind
    case Explicit(_, _) => SelectorLed
    case OpenEnded(_) => SelectorLed
    case Default => DefaultLed
    case Unbounded => RawLed
  }

  /** The groups whose first call is of a sort. */
  function Led(groups: seq<seq<ReadCall>>, lead: Lead): (r: seq<seq<ReadCall>>)
    ensures forall g :: g in r ==> g in groups
  {
    if groups == [] then []
    else
      var n := |groups| - 1;
      Led(groups[..n], lead) + if groups[n] != [] && LeadOf(groups[n][0]) == lead then [groups[n]] else []
  }

  /** The sum of two totals. */
  function Plus(a: Totals, b: Totals): Totals {
    Totals(a.tokens + b.tokens, a.calls + b.calls, a.skipped + b.skipped, a.truncations + b.truncations,
      a.bytesLimited + b.bytesLimited, a.selectorTokens + b.selectorTokens, a.selectorCalls + b.selectorCalls,
      a.selectorSkipped + b.selectorSkipped, a.selectorGroups + b.selectorGroups,
      a.singleCallGroups + b.singleCallGroups, a.coveredByFirst + b.coveredByFirst,
      a.defaultTokens + b.defaultTokens, a.defaultCalls + b.defaultCalls, a.defaultSkipped + b.defaultSkipped,
      a.rawTokens + b.rawTokens, a.rawCalls + b.rawCalls)
  }

  /** Totals of groups that all begin with a call of one sort. */
  predicate OfLead(t: Totals, n: nat, lead: Lead) {
    && t.selectorTokens == (if lead.SelectorLed? then t.tokens else 0.0)
    && t.selectorCalls == (if lead.SelectorLed? then t.calls else 0)
    && t.selectorSkipped == (if lead.SelectorLed? then t.skipped else 0)
    && t.selectorGroups == (if lead.SelectorLed? then n else 0)
    && t.defaultTokens == (if lead.DefaultLed? then t.tokens else 0.0)
    && t.defaultCalls == (if lead.DefaultLed? then t.calls else 0)
    && t.defaultSkipped == (if lead.DefaultLed? then t.skipped else 0)
  }

  lemma {:induction false} GroupAdds(t: Totals, group: seq<ReadCall>, cfg: Config)
    requires group != [] && AllValid(group, cfg)
    ensures AfterGroup(t, group, cfg) == Plus(t, AfterGroup(NOTHING, group, cfg))
    ensures OfLead(AfterGroup(NOTHING, group, cfg), 1, LeadOf(group[0]))
  {
    hide SkippedIn, TokensIn, FirstSuffices, CountUnbounded, PaidWhere, RawTokens, AllValid;
  }

  lemma {:induction false} LedStep(groups: seq<seq<ReadCall>>, cfg: Config, lead: Lead)
    requires groups != [] && ValidGroups(groups, cfg)
    ensures var front, g := groups[..|groups| - 1], groups[|groups| - 1];
      && g in groups && ValidGroups(front, cfg) && ValidGroups(Led(groups, lead), cfg)
      && ValidGroups(Led(front, lead), cfg)
      && AfterGroups(Led(groups, lead), cfg) ==
         if LeadOf(g[0]) == lead then Plus(AfterGroups(Led(front, lead), cfg), AfterGroup(NOTHING, g, cfg))
         else AfterGroups(Led(front, lead), cfg)
  {
    hide AfterGroup, AllValid, Plus;
    var front, g := groups[..|groups| - 1], groups[|groups| - 1];
    assert g in groups;
    assert forall x :: x in front ==> x in groups;
    var led := Led(front, lead);
    if LeadOf(g[0]) == lead {
      assert Led(groups, lead) == led + [g];
      assert (led + [g])[..|led|] == led && (led + [g])[|led|] == g;
      GroupAdds(AfterGroups(led, cfg), g, cfg);
    } else {
      assert Led(groups, lead) == led;
    }
  }

  lemma {:induction false} LedTotals(groups: seq<seq<ReadCall>>, cfg: Config, lead: Lead)
    requires ValidGroups(groups, cfg)
    ensures ValidGroups(Led(groups, lead), cfg)
    ensures OfLead(AfterGroups(Led(groups, lead), cfg), |Led(groups, lead)|, lead)
  {
    hide AfterGroup, AllValid;
    if groups != [] {
      var front, g := groups[..|groups| - 1], groups[|groups| - 1];
      LedStep(groups, cfg, lead);
      LedTotals(front, cfg, lead);
      GroupAdds(NOTHING, g, cfg);
    }
  }

  lemma {:induction false} PlusOrder(a: Totals, b: Totals, c: Totals)
    ensures Plus(a, b) == Plus(b, a) && Plus(Plus(a, b), c) == Plus(a, Plus(b, c)) && Plus(NOTHING, a) == a
  {
  }

  lemma {:induction false} PlusMoves(a: Totals, b: Totals, c: Totals, x: Totals)
    ensures Plus(Plus(Plus(a, x), b), c) == Plus(Plus(Plus(a, b), c), x)
    ensures Plus(Plus(a, Plus(b, x)), c) == Plus(Plus(Plus(a, b), c), x)
    ensures Plus(Plus(a, b), Plus(c, x)) == Plus(Plus(Plus(a, b), c), x)
  {
    hide Plus;
    PlusOrder(a, x, b);
    PlusOrder(a, b, x);
    PlusOrder(x, b, a);
    PlusOrder(Plus(a, b), x, c);
    PlusOrder(Plus(a, b), c, x);
    PlusOrder(x, c, a);
  }

  /**
   The totals are those of the groups led by a selector, by a default page and by an unbounded read, replayed by
   themselves, and the first two are what is counted for selectors and for default pages.
   */
  lemma {:induction false} TotalsByLead(groups: seq<seq<ReadCall>>, cfg: Config)
    requires ValidGroups(groups, cfg)
    ensures var s, d, r := Led(groups, SelectorLed), Led(groups, DefaultLed), Led(groups, RawLed);
      && ValidGroups(s, cfg) && ValidGroups(d, cfg) && ValidGroups(r, cfg)
      && OfLead(AfterGroups(s, cfg), |s|, SelectorLed) && OfLead(AfterGroups(d, cfg), |d|, DefaultLed)
      && OfLead(AfterGroups(r, cfg), |r|, RawLed)
      && AfterGroups(groups, cfg) == Plus(Plus(AfterGroups(s, cfg), AfterGroups(d, cfg)), AfterGroups(r, cfg))
  {
    hide AfterGroup, AllValid, Led, OfLead, Plus;
    LedTotals(groups, cfg, SelectorLed);
    LedTotals(groups, cfg, DefaultLed);
    LedTotals(groups, cfg, RawLed);
    if groups == [] {
      NoneLed();
      PlusOrder(NOTHING, NOTHING, NOTHING);
    } else {
      LedStep(groups, cfg, SelectorLed);
      LedStep(groups, cfg, DefaultLed);
      LedStep(groups, cfg, RawLed);
      var front, g := groups[..|groups| - 1], groups[|groups| - 1];
      TotalsByLead(front, cfg);
      GroupAdds(AfterGroups(front, cfg), g, cfg);
      PlusMoves(AfterGroups(Led(front, SelectorLed), cfg), AfterGroups(Led(front, DefaultLed), cfg),
        AfterGroups(Led(front, RawLed), cfg), AfterGroup(NOTHING, g, cfg));
    }
  }

  lemma {:induction false} NoneLed()
    ensures forall lead :: Led([], lead) == []
  {
  }

  /** What the coverage list stands for while a group is replayed. */
  ghost predicate IsCoverage(coverage: seq<Span>, group: seq<ReadCall>, cfg: Config, n: nat)
    requires AllValid(group, cfg) && n <= |group|
  {
    Loose(coverage) && forall l: nat :: Covers(coverage, l) <==> DeliveredBefore(group, cfg, n, l)
  }

  lemma {:induction false} CoverageStep(group: seq<ReadCall>, cfg: Config, i: nat, next: nat, l: nat)
    requires AllValid(group, cfg) && i < |group| && next == i + 1
    ensures group[i] in group
    ensures DeliveredBefore(group, cfg, next, l) <==> (DeliveredBefore(group, cfg, i, l)
      || (!group[i].kind.Unbounded? && !Skips(group, cfg, i) && HasLine(DeliveredInterval(group[i], cfg).value, l)))
  {
    hide Skips, HasLine, DeliveredInterval;
    assert group[i] in group;
    if DeliveredBefore(group, cfg, i, l) {
      var j :| 0 <= j < i && group[j] in group && !group[j].kind.Unbounded? && !Skips(group, cfg, j)
        && HasLine(DeliveredInterval(group[j], cfg).value, l);
      assert 0 <= j < next;
    }
  }

  lemma {:induction false} SkipsWhen(coverage: seq<Span>, group: seq<ReadCall>, cfg: Config, i: nat)
    requires AllValid(group, cfg) && i < |group| && IsCoverage(coverage, group, cfg, i)
    ensures group[i] in group
    ensures Skips(group, cfg, i)
       <==> i > 0 && !group[i].kind.Unbounded? && FullyCovered(coverage, RequestedInterval(group[i], cfg).value)
  {
    hide DeliveredBefore, Covers, RequestedInterval;
    assert group[i] in group;
    if !group[i].kind.Unbounded? {
      var target := RequestedInterval(group[i], cfg).value;
      assert forall l: nat :: HasLine(target, l) ==> target.start <= l <= target.end;
    }
  }

  /** What one paid call adds, beside its skipping or paying for itself. */
  function Paid(t: Totals, call: ReadCall, cfg: Config, selectorFirst: bool, defaultFirst: bool): Totals {
    var cost := CostOf(call, cfg);
    t.(tokens := t.tokens + cost, calls := t.calls + 1,
       selectorTokens := t.selectorTokens + (if selectorFirst then cost else 0.0),
       selectorCalls := t.selectorCalls + (if selectorFirst then 1 else 0),
       defaultTokens := t.defaultTokens + (if !selectorFirst && defaultFirst then cost else 0.0),
       defaultCalls := t.defaultCalls + (if !selectorFirst && defaultFirst then 1 else 0))
  }

  lemma {:induction false} PaidStep(t: Totals, group: seq<ReadCall>, cfg: Config, i: nat, next: nat)
    requires group != [] && AllValid(group, cfg) && i < |group| && next == i + 1 && !Skips(group, cfg, i)
    ensures var call := group[i];
      var p := Paid(After(t, group, cfg, i), call, cfg, SelectorFirst(group), group[0].kind.Default?);
      After(t, group, cfg, next) == p.(
        truncations := p.truncations + (if IsTruncated(call, cfg) then 1 else 0),
        bytesLimited := p.bytesLimited + (if IsBytesLimited(call, cfg) then 1 else 0),
        rawTokens := p.rawTokens + (if call.kind.Unbounded? then CostOf(call, cfg) else 0.0),
        rawCalls := p.rawCalls + (if call.kind.Unbounded? then 1 else 0))
  {
    hide Skips, CostOf, IsTruncated, IsBytesLimited;
    SkippedBound(group, cfg, i);
    assert group[..next][..i] == group[..i];
  }

  lemma {:induction false} SkippedStep(t: Totals, group: seq<ReadCall>, cfg: Config, i: nat, next: nat)
    requires group != [] && AllValid(group, cfg) && i < |group| && next == i + 1 && Skips(group, cfg, i)
    requires !group[i].kind.Unbounded?
    ensures var s := After(t, group, cfg, i);
      var selector, default := SelectorFirst(group), group[0].kind.Default?;
      After(t, group, cfg, next) == s.(skipped := s.skipped + 1,
        selectorSkipped := s.selectorSkipped + (if selector then 1 else 0),
        defaultSkipped := s.defaultSkipped + (if default then 1 else 0))
  {
    hide Skips, CostOf, IsTruncated, IsBytesLimited;
    SkippedBound(group, cfg, i);
    assert group[..next][..i] == group[..i];
  }

  lemma {:induction false} StartTotals(t: Totals, group: seq<ReadCall>, cfg: Config)
    requires group != [] && AllValid(group, cfg)
    ensures After(t, group, cfg, 0) == t
  {
  }

  method ReplayGroup(group: seq<ReadCall>, cfg: Config, before: Totals) returns (t: Totals)
    requires group != [] && AllValid(group, cfg)
    ensures t == AfterGroup(before, group, cfg)
  {
    hide Skips, IsCoverage, Covers, DeliveredInterval, RequestedInterval, FirstSuffices, Loose, FullyCovered, CostOf,
         After, IsTruncated, IsBytesLimited;
    var selectorFirst, defaultFirst := SelectorFirst(group), group[0].kind.Default?;
    t := before;
    var coverage: seq<Span> := [];
    var coveredAllByFirst := false;
    StartCoverage(group, cfg);
    StartTotals(before, group, cfg);
    for idx := 0 to |group|
      invariant t == After(before, group, cfg, idx) && IsCoverage(coverage, group, cfg, idx)
      invariant idx > 0 && selectorFirst ==> (coveredAllByFirst <==> AllWithinFirst(group, cfg))
    {
      var call := group[idx];
      SkipsWhen(coverage, group, cfg, idx);
      assert call in group;
      var req := RequestedInterval(call, cfg);
      var delivered := DeliveredInterval(call, cfg);
      var cost := CostOf(call, cfg);
      CoverageLoose(coverage, group, cfg, idx);
      if req.None? || delivered.None? {
        KeepCoverage(coverage, group, cfg, idx, idx + 1);
        PaidStep(before, group, cfg, idx, idx + 1);
        NotBounded(call, cfg);
        t := Paid(t, call, cfg, selectorFirst, defaultFirst);
        t := t.(rawTokens := t.rawTokens + cost, rawCalls := t.rawCalls + 1);
        continue;
      }
      var covered := false;
      if idx > 0 { covered := IsCovered(coverage, req.value); }
      if idx > 0 && covered {
        KeepCoverage(coverage, group, cfg, idx, idx + 1);
        SkippedStep(before, group, cfg, idx, idx + 1);
        t := t.(skipped := t.skipped + 1,
                selectorSkipped := t.selectorSkipped + (if selectorFirst then 1 else 0),
                defaultSkipped := t.defaultSkipped + (if !selectorFirst && defaultFirst then 1 else 0));
        continue;
      }
      PaidStep(before, group, cfg, idx, idx + 1);
      t := Paid(t, call, cfg, selectorFirst, defaultFirst);
      t := t.(truncations := t.truncations + (if IsTruncated(call, cfg) then 1 else 0),
              bytesLimited := t.bytesLimited + (if IsBytesLimited(call, cfg) then 1 else 0));
      var more := AddInterval(coverage, delivered.value);
      GrowCoverage(coverage, more, group, cfg, idx, idx + 1);
      coverage := more;
      if idx == 0 && selectorFirst {
        coveredAllByFirst := CheckFirst(group, cfg);
      }
    }
    SufficesWhen(group, cfg);
    if selectorFirst {
      t := t.(selectorGroups := t.selectorGroups + 1,
              singleCallGroups := t.singleCallGroups + (if |group| == 1 then 1 else 0));
      if coveredAllByFirst || |group| == 1 { t := t.(coveredByFirst := t.coveredByFirst + 1); }
    }
  }

  lemma {:induction false} NotBounded(call: ReadCall, cfg: Config)
    requires call.kind.Unbounded?
    ensures !IsTruncated(call, cfg) && !IsBytesLimited(call, cfg)
  {
  }

  predicate AllWithinFirst(group: seq<ReadCall>, cfg: Config)
    requires AllValid(group, cfg)
  {
    forall j :: 1 <= j < |group| ==> WithinFirst(group, cfg, j)
  }

  lemma {:induction false} SufficesWhen(group: seq<ReadCall>, cfg: Config)
    requires group != [] && AllValid(group, cfg)
    ensures FirstSuffices(group, cfg) <==> SelectorFirst(group) && (|group| == 1 || AllWithinFirst(group, cfg))
  {
  }

  /** The loop over the later requests, left at the first that is not covered. */
  method CheckFirst(group: seq<ReadCall>, cfg: Config) returns (all: bool)
    requires group != [] && AllValid(group, cfg) && SelectorFirst(group)
    ensures all <==> AllWithinFirst(group, cfg)
  {
    hide FullyCovered, DeliveredInterval, RequestedInterval;
    assert group[0] in group;
    var delivered := DeliveredInterval(group[0], cfg).value;
    for j := 1 to |group|
      invariant forall k :: 1 <= k < j ==> WithinFirst(group, cfg, k)
    {
      assert group[j] in group;
      var req := RequestedInterval(group[j], cfg);
      if req.Some? {
        var covered := IsCovered([delivered], req.value);
        if !covered {
          assert !WithinFirst(group, cfg, j);
          return false;
        }
      }
    }
    return true;
  }

  lemma {:induction false} StartCoverage(group: seq<ReadCall>, cfg: Config)
    requires AllValid(group, cfg)
    ensures IsCoverage([], group, cfg, 0)
  {
  }

  lemma {:induction false} CoverageLoose(coverage: seq<Span>, group: seq<ReadCall>, cfg: Config, n: nat)
    requires AllValid(group, cfg) && n <= |group| && IsCoverage(coverage, group, cfg, n)
    ensures Loose(coverage)
  {
  }

  lemma {:induction false} KeepCoverage(coverage: seq<Span>, group: seq<ReadCall>, cfg: Config, i: nat, next: nat)
    requires AllValid(group, cfg) && i < |group| && next == i + 1 && IsCoverage(coverage, group, cfg, i)
    requires group[i].kind.Unbounded? || Skips(group, cfg, i)
    ensures IsCoverage(coverage, group, cfg, next)
  {
    hide Skips, Covers, DeliveredBefore, Loose;
    forall l: nat ensures Covers(coverage, l) <==> DeliveredBefore(group, cfg, next, l) {
      CoverageStep(group, cfg, i, next, l);
    }
  }

  lemma {:induction false} GrowCoverage(coverage: seq<Span>, more: seq<Span>, group: seq<ReadCall>, cfg: Config, i: nat,
    next: nat)
    requires AllValid(group, cfg) && i < |group| && next == i + 1 && IsCoverage(coverage, group, cfg, i)
    requires group[i] in group && !group[i].kind.Unbounded? && !Skips(group, cfg, i) && Loose(more)
    requires forall l: nat :: Covers(more, l) <==>
      Covers(coverage, l) || HasLine(DeliveredInterval(group[i], cfg).value, l)
    ensures IsCoverage(more, group, cfg, next)
  {
    hide Skips, Covers, DeliveredBefore, Loose, HasLine, DeliveredInterval;
    forall l: nat ensures Covers(more, l) <==> DeliveredBefore(group, cfg, next, l) {
      CoverageStep(group, cfg, i, next, l);
    }
  }

  method Replay(groups: seq<seq<ReadCall>>, cfg: Config) returns (t: Totals)
    requires ValidGroups(groups, cfg)
    ensures t == AfterGroups(groups, cfg)
    ensures t.calls + t.skipped == CountCalls(groups)
  {
    hide AfterGroup, AllValid;
    t := NOTHING;
    assert groups[..0] == [];
    for i := 0 to |groups|
      invariant ValidGroups(groups[..i], cfg) && t == AfterGroups(groups[..i], cfg)
    {
      assert groups[i] in groups && groups[..i + 1] == groups[..i] + [groups[i]];
      assert groups[..i + 1][..i] == groups[..i];
      assert ValidGroups(groups[..i + 1], cfg);
      t := ReplayGroup(groups[i], cfg, t);
    }
    assert groups[..|groups|] == groups;
    PaidPlusSkipped(groups, cfg);
  }

  // ----- the frontier -----

  datatype Result = Result(tokens: real, calls: nat, truncations: nat)

  predicate Clean(r: Result, maxTruncations: nat, maxTokens: Option<real>) {
    r.truncations <= maxTruncations && (maxTokens.Some? ==> r.tokens <= maxTokens.value)
  }

  function CleanOnes(rs: seq<Result>, maxTruncations: nat, maxTokens: Option<real>): (clean: seq<Result>)
    ensures forall r :: r in clean <==> r in rs && Clean(r, maxTruncations, maxTokens)
  {
    if rs == [] then []
    else
      assert rs == [rs[0]] + rs[1..];
      (if Clean(rs[0], maxTruncations, maxTokens) then [rs[0]] else []) + CleanOnes(rs[1..], maxTruncations, maxTokens)
  }

  predicate ResultAfter(a: Result, b: Result) { a.tokens > b.tokens || (a.tokens == b.tokens && a.calls > b.calls) }

  predicate AtLeastAsGood(a: Result, b: Result) { a.tokens <= b.tokens && a.calls <= b.calls }

  predicate Dominates(a: Result, b: Result) { AtLeastAsGood(a, b) && (a.tokens < b.tokens || a.calls < b.calls) }

  /** The clean results that no clean result dominates, each trade-off once, cheapest in tokens first. */
  method Pareto(results: seq<Result>, maxTruncations: nat, maxTokens: Option<real>) returns (frontier: seq<Result>)
    ensures forall f :: f in frontier ==> f in results && Clean(f, maxTruncations, maxTokens)
    ensures forall f, r :: f in frontier && r in results && Clean(r, maxTruncations, maxTokens) ==> !Dominates(r, f)
    ensures forall r :: r in results && Clean(r, maxTruncations, maxTokens) ==> Met(frontier, r)
    ensures Descending(frontier)
  {
    var clean := CleanOnes(results, maxTruncations, maxTokens);
    var sorted := StableSort(clean, ResultAfter);
    SortedResults(clean);
    hide StableSort, Sorted, Met, Undominated, Descending, AtLeastAsGood, Dominates, Clean, ResultAfter;
    frontier := [];
    var bestCalls: Option<nat> := None;
    FrontStart(sorted);
    for i := 0 to |sorted|
      invariant Front(sorted, i, frontier) && bestCalls == BestOf(frontier)
    {
      hide Front;
      var r := sorted[i];
      FrontStep(sorted, i, i + 1, frontier);
      if bestCalls.None? || r.calls < bestCalls.value {
        frontier := frontier + [r];
        bestCalls := Some(r.calls);
      }
    }
    FrontEnd(sorted, frontier);
    FrontMeaning(results, maxTruncations, maxTokens, sorted, frontier);
  }

  lemma {:induction false} FrontMeaning(results: seq<Result>, maxTruncations: nat, maxTokens: Option<real>,
    sorted: seq<Result>, frontier: seq<Result>)
    requires forall r :: r in sorted <==> r in results && Clean(r, maxTruncations, maxTokens)
    requires forall f :: f in frontier ==> f in sorted && Undominated(sorted, f)
    ensures forall f, r :: f in frontier && r in results && Clean(r, maxTruncations, maxTokens) ==> !Dominates(r, f)
  {
    hide Dominates, Clean;
  }

  function BestOf(frontier: seq<Result>): Option<nat> {
    if frontier == [] then None else Some(frontier[|frontier| - 1].calls)
  }

  predicate Met(frontier: seq<Result>, r: Result) { exists f :: f in frontier && AtLeastAsGood(f, r) }

  predicate Undominated(sorted: seq<Result>, f: Result) { forall r :: r in sorted ==> !Dominates(r, f) }

  predicate Descending(frontier: seq<Result>) {
    forall i, j :: 0 <= i < j < |frontier| ==>
      frontier[i].tokens < frontier[j].tokens && frontier[i].calls > frontier[j].calls
  }

  /** After the first `i` results: the frontier is of them, meets them all, and is met by none that it is not. */
  ghost predicate Front(sorted: seq<Result>, i: nat, frontier: seq<Result>) {
    && i <= |sorted| && Sorted(sorted, ResultAfter) && Descending(frontier)
    && (forall f :: f in frontier ==> f in sorted[..i] && Undominated(sorted, f))
    && (forall k :: 0 <= k < i ==> Met(frontier, sorted[k]))
    && (frontier == [] ==> i == 0)
  }

  lemma {:induction false} FrontStart(sorted: seq<Result>)
    requires Sorted(sorted, ResultAfter)
    ensures Front(sorted, 0, [])
  {
  }

  lemma {:induction false} FrontEnd(sorted: seq<Result>, frontier: seq<Result>)
    requires Front(sorted, |sorted|, frontier)
    ensures Descending(frontier) && forall f :: f in frontier ==> f in sorted && Undominated(sorted, f)
    ensures forall r :: r in sorted ==> Met(frontier, r)
  {
    hide Met, Undominated;
    assert sorted[..|sorted|] == sorted;
  }

  /** The last of a frontier has the fewest calls. */
  lemma {:induction false} LastIsBest(frontier: seq<Result>, r: Result)
    requires Descending(frontier) && Met(frontier, r)
    ensures frontier != [] && frontier[|frontier| - 1].calls <= r.calls
  {
    var f :| f in frontier && AtLeastAsGood(f, r);
    var i :| 0 <= i < |frontier| && frontier[i] == f;
  }

  lemma {:induction false} FrontStep(sorted: seq<Result>, i: nat, next: nat, frontier: seq<Result>)
    requires Front(sorted, i, frontier) && i < |sorted| && next == i + 1
    ensures var best := BestOf(frontier);
      Front(sorted, next,
        if best.None? || sorted[i].calls < best.value then frontier + [sorted[i]] else frontier)
  {
    hide Met, Undominated, AtLeastAsGood, ResultAfter;
    var r, best := sorted[i], BestOf(frontier);
    assert sorted[..next] == sorted[..i] + [r];
    if best.None? || r.calls < best.value {
      var now := frontier + [r];
      forall k | 0 <= k < i ensures r.calls < sorted[k].calls {
        LastIsBest(frontier, sorted[k]);
      }
      NewBest(sorted, i);
      forall k | 0 <= k < next ensures Met(now, sorted[k]) {
        if k < i { MetMore(frontier, r, sorted[k]); } else { MetItself(frontier, r); }
      }
      forall j | 0 <= j < |frontier| ensures frontier[j].tokens < r.tokens && frontier[j].calls > r.calls {
        CheaperBefore(sorted, i, frontier, j);
      }
    } else {
      LastMeets(sorted, i, frontier);
    }
  }

  lemma {:induction false} MetMore(frontier: seq<Result>, r: Result, x: Result)
    requires Met(frontier, x)
    ensures Met(frontier + [r], x)
  {
    var f :| f in frontier && AtLeastAsGood(f, x);
    assert f in frontier + [r];
  }

  lemma {:induction false} MetItself(frontier: seq<Result>, r: Result)
    ensures Met(frontier + [r], r)
  {
    assert r in frontier + [r] && AtLeastAsGood(r, r);
  }

  lemma {:induction false} EarlierIsCheaper(sorted: seq<Result>, i: nat, f: Result)
    requires Sorted(sorted, ResultAfter) && i < |sorted| && f in sorted[..i]
    ensures f.tokens <= sorted[i].tokens && (f.tokens == sorted[i].tokens ==> f.calls <= sorted[i].calls)
  {
    var k :| 0 <= k < i && sorted[..i][k] == f;
    assert !ResultAfter(sorted[k], sorted[i]);
  }

  lemma {:induction false} CheaperBefore(sorted: seq<Result>, i: nat, frontier: seq<Result>, j: nat)
    requires Front(sorted, i, frontier) && i < |sorted| && j < |frontier|
    requires sorted[i].calls < frontier[|frontier| - 1].calls
    ensures frontier[j].tokens < sorted[i].tokens && frontier[j].calls > sorted[i].calls
  {
    hide Met, Undominated;
    assert frontier[j] in frontier;
    EarlierIsCheaper(sorted, i, frontier[j]);
  }

  lemma {:induction false} LastMeets(sorted: seq<Result>, i: nat, frontier: seq<Result>)
    requires Front(sorted, i, frontier) && i < |sorted| && frontier != []
    requires frontier[|frontier| - 1].calls <= sorted[i].calls
    ensures Met(frontier, sorted[i])
  {
    hide Undominated;
    var f := frontier[|frontier| - 1];
    assert f in frontier;
    EarlierIsCheaper(sorted, i, f);
    assert AtLeastAsGood(f, sorted[i]);
  }

  lemma {:induction false} SortedResults(rs: seq<Result>)
    ensures Sorted(StableSort(rs, ResultAfter), ResultAfter)
    ensures forall r :: r in StableSort(rs, ResultAfter) <==> r in rs
  {
    SortSorts(rs, ResultAfter);
    SortKeeps(rs, ResultAfter);
    assert forall r :: r in StableSort(rs, ResultAfter) <==> r in multiset(StableSort(rs, ResultAfter));
    assert forall r :: r in rs <==> r in multiset(rs);
  }

  /** A result with fewer calls than all before it is dominated by none. */
  lemma {:induction false} NewBest(sorted: seq<Result>, i: nat)
    requires Sorted(sorted, ResultAfter) && i < |sorted| && forall k :: 0 <= k < i ==> sorted[i].calls < sorted[k].calls
    ensures Undominated(sorted, sorted[i])
  {
    forall r | r in sorted ensures !Dominates(r, sorted[i]) {
      var k :| 0 <= k < |sorted| && sorted[k] == r;
      if k > i { assert !ResultAfter(sorted[i], sorted[k]); }
    }
  }
}
