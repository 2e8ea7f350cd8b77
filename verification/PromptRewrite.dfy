/**
 Rewriting the prose lines of a prompt in batches, and what may change.
 */
module PromptRewrite {
  import opened Basics
  import opened PromptTokens
  import opened WorkerPool

  /** A line chosen for rewriting, split around its core, and the tokens that must survive. */
  datatype Entry = Entry(lineIndex: nat, prefix: string, core: string, suffix: string, tokens: seq<string>)

  // ----- batches -----

  function Flatten<T>(groups: seq<seq<T>>): seq<T> {
    if groups == [] then [] else Flatten(groups[..|groups| - 1]) + groups[|groups| - 1]
  }

  /** Groups of one size, only the last perhaps smaller, that hold everything in order. */
  method Chunk<T>(items: seq<T>, size: int) returns (groups: seq<seq<T>>)
    ensures Flatten(groups) == items
    ensures forall g :: 0 <= g < |groups| ==> 0 < |groups[g]| <= Max(1, size)
    ensures forall g :: 0 <= g < |groups| - 1 ==> |groups[g]| == Max(1, size)
  {
    groups := [];
    var step := Max(1, size);
    var i := 0;
    while i < |items|
      invariant 0 <= i && Flatten(groups) == if i <= |items| then items[..i] else items
      invariant forall g :: 0 <= g < |groups| ==> 0 < |groups[g]| <= step
      invariant forall g :: 0 <= g < |groups| - 1 ==> |groups[g]| == step
      invariant groups != [] && i < |items| ==> |groups[|groups| - 1]| == step
      decreases |items| - i
    {
      var end := Min(i + step, |items|);
      ghost var before := groups;
      groups := groups + [items[i..end]];
      assert groups[..|groups| - 1] == before;
      assert items[..i] + items[i..end] == items[..end];
      i := i + step;
    }
    assert i <= |items| ==> items[..i] == items;
    assert items[..|items|] == items;
  }

  // ----- putting the file together -----

  datatype Plan = Plan(lines: seq<string>, prose: seq<Entry>)

  function Rebuilt(e: Entry, text: string): string { e.prefix + text + e.suffix }

  /** Entries are lines of the file, each at most once, in order, and split without loss. */
  predicate ValidPlan(plan: Plan) {
    && (forall e :: e in plan.prose ==> e.lineIndex < |plan.lines| && plan.lines[e.lineIndex] == Rebuilt(e, e.core))
    && (forall i, j :: 0 <= i < j < |plan.prose| ==> plan.prose[i].lineIndex < plan.prose[j].lineIndex)
  }

  type Reply = Option<map<nat, string>>

  datatype Resolved = Resolved(entry: Entry, text: string, ok: bool)

  /** A batch that failed has no answers; an entry without one keeps its core. */
  function Resolve(e: Entry, reply: Reply): Resolved {
    if reply.Some? && e.lineIndex in reply.value then Resolved(e, reply.value[e.lineIndex], true)
    else Resolved(e, e.core, false)
  }

  function ResolveGroup(group: seq<Entry>, reply: Reply): (r: seq<Resolved>)
    ensures |r| == |group| && forall k :: 0 <= k < |group| ==> r[k] == Resolve(group[k], reply)
  {
    seq(|group|, k requires 0 <= k < |group| => Resolve(group[k], reply))
  }

  /** What each batch comes back as, whichever worker ran it and when. */
  function Outcome(groups: seq<seq<Entry>>, replies: nat -> Reply): nat -> seq<Resolved> {
    (i: nat) => if i < |groups| then ResolveGroup(groups[i], replies(i)) else []
  }

  function Selected(plan: Plan, limit: int): seq<Entry> {
    if limit > 0 then plan.prose[..Min(limit, |plan.prose|)] else plan.prose
  }

  /** Which batch the entry at `k` of the selection goes into. */
  function Batch(k: nat, size: int): nat { k / Max(1, size) }

  /** Every selected entry is resolved by the reply to its own batch. */
  function Resolutions(plan: Plan, replies: nat -> Reply, size: int, limit: int): (r: seq<Resolved>)
    ensures |r| == |Selected(plan, limit)|
    ensures forall k :: 0 <= k < |r| ==> r[k] == Resolve(Selected(plan, limit)[k], replies(Batch(k, size)))
  {
    var chosen := Selected(plan, limit);
    seq(|chosen|, k requires 0 <= k < |chosen| => Resolve(chosen[k], replies(Batch(k, size))))
  }

  /** Groups of one size, the last perhaps smaller. */
  predicate Sized<T>(groups: seq<seq<T>>, step: nat) {
    && (forall g :: 0 <= g < |groups| ==> |groups[g]| <= step)
    && (forall g :: 0 <= g < |groups| - 1 ==> |groups[g]| == step)
  }

  lemma {:induction false} FullLength<T>(groups: seq<seq<T>>, step: nat, n: nat)
    requires Sized(groups, step) && n < |groups|
    ensures |Flatten(groups[..n])| == n * step
  {
    if n > 0 {
      FullLength(groups, step, n - 1);
      assert groups[..n][..n - 1] == groups[..n - 1];
      assert (n - 1) * step + step == n * step;
    }
  }

  lemma {:induction false} FlatAt<T>(groups: seq<seq<T>>, step: nat, k: nat)
    requires Sized(groups, step) && step > 0 && k < |Flatten(groups)|
    ensures k / step < |groups| && k % step < |groups[k / step]| && Flatten(groups)[k] == groups[k / step][k % step]
  {
    var n := |groups| - 1;
    FullLength(groups, step, n);
    if k < |Flatten(groups[..n])| {
      FlatAt(groups[..n], step, k);
    } else {
      hide Flatten, Sized;
      var j := LastGroup(groups, step, k);
      Quotient(k, step, n, j);
    }
  }

  lemma {:induction false} LastGroup<T>(groups: seq<seq<T>>, step: nat, k: nat) returns (j: nat)
    requires Sized(groups, step) && groups != []
    requires |Flatten(groups[..|groups| - 1])| == (|groups| - 1) * step <= k < |Flatten(groups)|
    ensures var n := |groups| - 1;
      j < step && j < |groups[n]| && k == n * step + j && Flatten(groups)[k] == groups[n][j]
  {
    j := k - |Flatten(groups[..|groups| - 1])|;
  }

  /** What the pool hands back, group by group, is each entry resolved by its own batch's reply. */
  lemma {:induction false} OwnReplies(plan: Plan, groups: seq<seq<Entry>>, resolved: seq<seq<Resolved>>,
    replies: nat -> Reply, size: int, limit: int)
    requires Flatten(groups) == Selected(plan, limit) && Sized(groups, Max(1, size)) && |resolved| == |groups|
    requires forall i :: 0 <= i < |groups| ==> resolved[i] == ResolveGroup(groups[i], replies(i))
    ensures Flatten(resolved) == Resolutions(plan, replies, size, limit)
  {
    hide Flatten, Resolve, Selected;
    SameSizes(groups, resolved);
    var step := Max(1, size);
    assert Sized(resolved, step);
    forall k | 0 <= k < |Flatten(resolved)| ensures Flatten(resolved)[k] == Resolutions(plan, replies, size, limit)[k] {
      FlatAt(groups, step, k);
      FlatAt(resolved, step, k);
    }
  }

  lemma {:induction false} SameSizes(groups: seq<seq<Entry>>, resolved: seq<seq<Resolved>>)
    requires |resolved| == |groups| && forall i :: 0 <= i < |groups| ==> |resolved[i]| == |groups[i]|
    ensures |Flatten(resolved)| == |Flatten(groups)|
  {
    if groups != [] {
      SameSizes(groups[..|groups| - 1], resolved[..|groups| - 1]);
    }
  }

  /** How many lines differ. */
  function Differing(a: seq<string>, b: seq<string>): nat
    requires |a| == |b|
  {
    if a == [] then 0
    else Differing(a[..|a| - 1], b[..|a| - 1]) + (if a[|a| - 1] != b[|a| - 1] then 1 else 0)
  }

  lemma {:induction false} DifferingUpdate(a: seq<string>, b: seq<string>, i: nat, x: string)
    requires |a| == |b| && i < |a| && b[i] == a[i]
    ensures Differing(a, b[i := x]) == Differing(a, b) + (if x != a[i] then 1 else 0)
  {
    var n := |a| - 1;
    if i < n {
      DifferingUpdate(a[..n], b[..n], i, x);
      assert b[i := x][..n] == b[..n][i := x];
    } else {
      assert b[i := x][..n] == b[..n];
    }
  }

  lemma {:induction false} DifferingNone(a: seq<string>)
    ensures Differing(a, a) == 0
  {
    if a != [] { DifferingNone(a[..|a| - 1]); }
  }

  function Failures(rs: seq<Resolved>): nat {
    if rs == [] then 0 else Failures(rs[..|rs| - 1]) + (if rs[|rs| - 1].ok then 0 else 1)
  }

  /** The selected lines are rebuilt around their answers, and no other line is touched. */
  predicate Assembled(plan: Plan, rs: seq<Resolved>, lines: seq<string>) {
    && |lines| == |plan.lines|
    && (forall k :: 0 <= k < |rs| ==> rs[k].entry.lineIndex < |lines|)
    && (forall k :: 0 <= k < |rs| ==> lines[rs[k].entry.lineIndex] == Rebuilt(rs[k].entry, rs[k].text))
    && (forall i :: 0 <= i < |lines| && (forall k :: 0 <= k < |rs| ==> rs[k].entry.lineIndex != i) ==>
          lines[i] == plan.lines[i])
  }

  /**
   Rewrite the selected prose lines in batches. Whatever batches fail, each selected line is its original or is
   rebuilt around the answer of its own batch, every other line is untouched, and the counts say how many lines
   differ and how many had no answer.
   */
  method RewriteAll(plan: Plan, replies: nat -> Reply, chunkSize: int, concurrency: int, limit: int)
    returns (lines: seq<string>, attempted: nat, changed: nat, fallback: nat)
    requires ValidPlan(plan)
    ensures attempted == if 0 < limit < |plan.prose| then limit else |plan.prose|
    ensures Selected(plan, limit) == plan.prose[..attempted]
    ensures Assembled(plan, Resolutions(plan, replies, chunkSize, limit), lines) && |lines| == |plan.lines|
    ensures changed == Differing(plan.lines, lines)
    ensures fallback == Failures(Resolutions(plan, replies, chunkSize, limit))
  {
    hide Flatten, Assembled, Differing, Failures, ValidPlan, Outcome, Resolutions;
    var toRewrite := Selected(plan, limit);
    attempted := |toRewrite|;
    var groups := Chunk(toRewrite, chunkSize);
    var resolved := MapPool(|groups|, concurrency, Outcome(groups, replies));
    OutcomesAre(groups, resolved, replies);
    OwnReplies(plan, groups, resolved, replies, chunkSize, limit);
    ghost var rs := Resolutions(plan, replies, chunkSize, limit);
    lines, changed, fallback := plan.lines, 0, 0;
    ghost var done: seq<Resolved> := [];
    NothingDone(plan);
    assert resolved[..0] == [];
    for g := 0 to |resolved|
      invariant done == Flatten(resolved[..g]) && done <= rs && |lines| == |plan.lines| && Assembled(plan, done, lines)
      invariant changed == Differing(plan.lines, lines) && fallback == Failures(done)
    {
      FlattenPrefix(resolved, g);
      lines, changed, fallback := ApplyGroup(plan, resolved[g], lines, changed, fallback, replies, chunkSize, limit,
          done);
      done := done + resolved[g];
    }
    assert resolved[..|resolved|] == resolved;
  }

  lemma {:induction false} OutcomesAre(groups: seq<seq<Entry>>, resolved: seq<seq<Resolved>>, replies: nat -> Reply)
    requires |resolved| == |groups| && forall i :: 0 <= i < |groups| ==> resolved[i] == Outcome(groups, replies)(i)
    ensures forall i :: 0 <= i < |groups| ==> resolved[i] == ResolveGroup(groups[i], replies(i))
  {
  }

  lemma {:induction false} NothingDone(plan: Plan)
    ensures Assembled(plan, [], plan.lines) && Differing(plan.lines, plan.lines) == 0 && Failures([]) == 0
    ensures Flatten<Resolved>([]) == []
  {
    DifferingNone(plan.lines);
  }

  /** Put the resolved entries of one batch into the file. */
  method ApplyGroup(plan: Plan, group: seq<Resolved>, before: seq<string>, changedBefore: nat, fallbackBefore: nat,
    ghost replies: nat -> Reply, ghost size: int, ghost limit: int, ghost done: seq<Resolved>)
    returns (lines: seq<string>, changed: nat, fallback: nat)
    requires ValidPlan(plan) && done + group <= Resolutions(plan, replies, size, limit)
    requires |before| == |plan.lines| && Assembled(plan, done, before)
    requires changedBefore == Differing(plan.lines, before) && fallbackBefore == Failures(done)
    ensures |lines| == |plan.lines| && Assembled(plan, done + group, lines)
    ensures changed == Differing(plan.lines, lines) && fallback == Failures(done + group)
  {
    hide Assembled, Differing, Failures, ValidPlan, Selected, Resolutions;
    lines, changed, fallback := before, changedBefore, fallbackBefore;
    ghost var soFar := done;
    for k := 0 to |group|
      invariant soFar == done + group[..k] && |lines| == |plan.lines| && Assembled(plan, soFar, lines)
      invariant changed == Differing(plan.lines, lines) && fallback == Failures(soFar)
    {
      var r := group[k];
      var rs := Resolutions(plan, replies, size, limit);
      assert (done + group)[|soFar|] == r && rs[|soFar|] == r && soFar < rs;
      SelectedEntry(plan, replies, size, limit, |soFar|);
      AssembleMore(plan, replies, size, limit, soFar, r, lines);
      var rebuilt := Rebuilt(r.entry, r.text);
      DifferingUpdate(plan.lines, lines, r.entry.lineIndex, rebuilt);
      FailuresMore(soFar, r);
      lines := lines[r.entry.lineIndex := rebuilt];
      if !r.ok {
        fallback := fallback + 1;
      } else if rebuilt != plan.lines[r.entry.lineIndex] {
        changed := changed + 1;
      }
      soFar := soFar + [r];
    }
    assert group[..|group|] == group;
  }

  lemma {:induction false} FlattenPrefix<T>(groups: seq<seq<T>>, g: nat)
    requires g < |groups|
    ensures Flatten(groups[..g + 1]) == Flatten(groups[..g]) + groups[g] && Flatten(groups[..g + 1]) <= Flatten(groups)
  {
    assert groups[..g + 1][..g] == groups[..g];
    PrefixFlat(groups, g + 1);
  }

  lemma {:induction false} PrefixFlat<T>(groups: seq<seq<T>>, n: nat)
    requires n <= |groups|
    ensures Flatten(groups[..n]) <= Flatten(groups)
    decreases |groups|
  {
    if n < |groups| {
      PrefixFlat(groups[..|groups| - 1], n);
      assert groups[..|groups| - 1][..n] == groups[..n];
    } else {
      assert groups[..n] == groups;
    }
  }

  lemma {:induction false} FailuresMore(rs: seq<Resolved>, r: Resolved)
    ensures Failures(rs + [r]) == Failures(rs) + (if r.ok then 0 else 1)
  {
    assert (rs + [r])[..|rs|] == rs;
  }

  /** An entry's place, and that an entry without answer rebuilds the line it came from. */
  lemma {:induction false} SelectedEntry(plan: Plan, replies: nat -> Reply, size: int, limit: int, k: nat)
    requires ValidPlan(plan) && k < |Selected(plan, limit)|
    ensures var rs := Resolutions(plan, replies, size, limit);
      && rs[k].entry == Selected(plan, limit)[k] && rs[k].entry.lineIndex < |plan.lines|
      && (!rs[k].ok ==> Rebuilt(rs[k].entry, rs[k].text) == plan.lines[rs[k].entry.lineIndex])
      && (forall j :: 0 <= j < k ==> rs[j].entry.lineIndex < rs[k].entry.lineIndex)
  {
    hide Resolutions;
    var chosen := Selected(plan, limit);
    assert chosen[k] == plan.prose[k] && plan.prose[k] in plan.prose;
    assert forall j :: 0 <= j < k ==> chosen[j] == plan.prose[j];
  }

  lemma {:induction false} AssembleMore(plan: Plan, replies: nat -> Reply, size: int, limit: int, done: seq<Resolved>,
    r: Resolved, lines: seq<string>)
    requires ValidPlan(plan) && done < Resolutions(plan, replies, size, limit)
    requires Resolutions(plan, replies, size, limit)[|done|] == r && Assembled(plan, done, lines)
    ensures r.entry.lineIndex < |lines| && lines[r.entry.lineIndex] == plan.lines[r.entry.lineIndex]
    ensures Assembled(plan, done + [r], lines[r.entry.lineIndex := Rebuilt(r.entry, r.text)])
  {
    hide Resolutions;
    SelectedEntry(plan, replies, size, limit, |done|);
    forall k | 0 <= k < |done| ensures done[k].entry.lineIndex != r.entry.lineIndex {
      assert Resolutions(plan, replies, size, limit)[k] == done[k];
    }
    var now := lines[r.entry.lineIndex := Rebuilt(r.entry, r.text)];
    forall i | 0 <= i < |now| && (forall k :: 0 <= k < |done + [r]| ==> (done + [r])[k].entry.lineIndex != i)
      ensures now[i] == plan.lines[i]
    {
      assert (done + [r])[|done|].entry.lineIndex != i;
      forall k | 0 <= k < |done| ensures done[k].entry.lineIndex != i {
        assert (done + [r])[k].entry.lineIndex != i;
      }
    }
  }

  // ----- retries -----

  datatype Item = Item(id: nat, tokens: seq<string>)

  predicate ValidItems(items: seq<Item>) {
    && (forall p :: p in items ==> AreTokens(p.tokens))
    && (forall i, j :: 0 <= i < j < |items| ==> items[i].id != items[j].id)
  }

  predicate Accepts(p: Item, reply: Reply)
    requires AreTokens(p.tokens)
  {
    reply.Some? && p.id in reply.value && Preserves(reply.value[p.id], p.tokens)
  }

  /** The first acceptable answer among the first `n` attempts. */
  function FirstGood(p: Item, answers: nat -> Reply, n: nat): Option<string>
    requires AreTokens(p.tokens)
  {
    if n == 0 then None
    else if FirstGood(p, answers, n - 1).Some? then FirstGood(p, answers, n - 1)
    else if Accepts(p, answers(n - 1)) then Some(answers(n - 1).value[p.id])
    else None
  }

  lemma {:induction false} GoodPreserves(p: Item, answers: nat -> Reply, n: nat)
    requires AreTokens(p.tokens)
    ensures FirstGood(p, answers, n).Some? ==> Preserves(FirstGood(p, answers, n).value, p.tokens)
  {
    if n > 0 { GoodPreserves(p, answers, n - 1); }
  }

  lemma {:induction false} GoodStays(p: Item, answers: nat -> Reply, n: nat, more: nat)
    requires AreTokens(p.tokens) && n <= more && FirstGood(p, answers, n).Some?
    ensures FirstGood(p, answers, more) == FirstGood(p, answers, n)
    decreases more
  {
    if n < more { GoodStays(p, answers, n, more - 1); }
  }

  function StillOpen(items: seq<Item>, answers: nat -> Reply, n: nat): (r: seq<Item>)
    requires forall p :: p in items ==> AreTokens(p.tokens)
    ensures forall p :: p in r <==> p in items && FirstGood(p, answers, n).None?
  {
    if items == [] then []
    else
      var last := items[|items| - 1];
      assert items == items[..|items| - 1] + [last];
      StillOpen(items[..|items| - 1], answers, n) + (if FirstGood(last, answers, n).None? then [last] else [])
  }

  /** Accepted answers so far, by item. */
  ghost predicate Accepted(items: seq<Item>, answers: nat -> Reply, n: nat, result: map<nat, string>)
    requires ValidItems(items)
  {
    && (forall p :: p in items ==> (p.id in result <==> FirstGood(p, answers, n).Some?))
    && (forall p :: p in items && p.id in result ==> FirstGood(p, answers, n) == Some(result[p.id]))
    && (forall id :: id in result ==> exists p :: p in items && p.id == id)
  }

  function Attempts(retries: int): nat { Max(0, retries + 1) }

  /** The answers kept after `n` attempts. */
  function Given(items: seq<Item>, answers: nat -> Reply, n: nat): map<nat, string>
    requires forall p :: p in items ==> AreTokens(p.tokens)
  {
    if items == [] then map[]
    else
      var last := items[|items| - 1];
      assert items == items[..|items| - 1] + [last];
      var before := Given(items[..|items| - 1], answers, n);
      if FirstGood(last, answers, n).Some? then before[last.id := FirstGood(last, answers, n).value] else before
  }

  lemma {:induction false} GivenAre(items: seq<Item>, answers: nat -> Reply, n: nat)
    requires ValidItems(items)
    ensures Accepted(items, answers, n, Given(items, answers, n))
  {
    hide FirstGood, AreTokens;
    if items != [] {
      var front, last := items[..|items| - 1], items[|items| - 1];
      assert items == front + [last];
      GivenAre(front, answers, n);
      forall p | p in front ensures p.id != last.id {
        var i :| 0 <= i < |front| && front[i] == p;
        assert items[i].id != items[|items| - 1].id;
      }
    }
  }

  lemma {:induction false} AcceptedAreGiven(items: seq<Item>, answers: nat -> Reply, n: nat, result: map<nat, string>)
    requires ValidItems(items) && Accepted(items, answers, n, result)
    ensures result == Given(items, answers, n)
  {
    hide FirstGood, AreTokens, Given;
    GivenAre(items, answers, n);
    var given := Given(items, answers, n);
    forall id | id in result ensures id in given && given[id] == result[id] {
      var p :| p in items && p.id == id;
    }
    forall id | id in given ensures id in result {
      var p :| p in items && p.id == id;
    }
  }

  /**
   Ask for all items, then again for those without an acceptable answer. An item has the first answer that keeps
   its tokens, or, after the last attempt, none.
   */
  method Rewrite(items: seq<Item>, answers: nat -> Reply, retries: int)
    returns (result: map<nat, string>, pending: seq<Item>)
    requires ValidItems(items)
    ensures Accepted(items, answers, Attempts(retries), result) && result == Given(items, answers, Attempts(retries))
    ensures pending == StillOpen(items, answers, Attempts(retries))
    ensures forall p :: p in items && p.id in result ==> Preserves(result[p.id], p.tokens)
  {
    hide Preserves, Accepted, Given, FirstGood, StillOpen, AreTokens;
    result, pending := map[], items;
    var attempt := 0;
    AcceptedStart(items, answers);
    while attempt <= retries && |pending| > 0
      invariant 0 <= attempt <= Attempts(retries)
      invariant Accepted(items, answers, attempt, result) && pending == StillOpen(items, answers, attempt)
      decreases retries + 1 - attempt
    {
      result, pending := TryOnce(items, answers, attempt, result, pending);
      attempt := attempt + 1;
    }
    Settled(items, answers, attempt, Attempts(retries), result, pending);
    AcceptedPreserves(items, answers, Attempts(retries), result);
    AcceptedAreGiven(items, answers, Attempts(retries), result);
  }

  lemma {:induction false} AcceptedStart(items: seq<Item>, answers: nat -> Reply)
    requires ValidItems(items)
    ensures Accepted(items, answers, 0, map[]) && StillOpen(items, answers, 0) == items
  {
    OpenStart(items, answers);
  }

  lemma {:induction false} OpenStart(items: seq<Item>, answers: nat -> Reply)
    requires forall p :: p in items ==> AreTokens(p.tokens)
    ensures StillOpen(items, answers, 0) == items
  {
    if items != [] {
      assert items == items[..|items| - 1] + [items[|items| - 1]];
      OpenStart(items[..|items| - 1], answers);
    }
  }

  /** One attempt; when it fails as a whole everything stays open. */
  method TryOnce(items: seq<Item>, answers: nat -> Reply, attempt: nat, result: map<nat, string>, pending: seq<Item>)
    returns (now: map<nat, string>, open: seq<Item>)
    requires ValidItems(items) && Accepted(items, answers, attempt, result)
    requires pending == StillOpen(items, answers, attempt)
    ensures Accepted(items, answers, attempt + 1, now) && open == StillOpen(items, answers, attempt + 1)
  {
    hide Preserves, Accepted, StillOpen, FirstGood, Between, Rejected, AreTokens;
    now, open := result, [];
    var reply := answers(attempt);
    OpenLater(items, answers, attempt, attempt + 1);
    Partway(items, answers, attempt, result, pending);
    assert pending[..0] == [];
    OpenTokens(items, answers, attempt);
    NothingOpen(answers, attempt, attempt + 1);
    for i := 0 to |pending|
      invariant forall p :: p in pending[..i] ==> AreTokens(p.tokens)
      invariant Between(items, answers, attempt, pending[..i], now)
      invariant open == Rejected(pending[..i], reply)
    {
      var p := pending[i];
      assert p in pending && p in items;
      assert pending[..i + 1] == pending[..i] + [p];
      RejectedEnd(pending[..i], p, reply);
      var keep := false;
      if reply.Some? && p.id in reply.value { keep := PreservesTokens(reply.value[p.id], p.tokens); }
      BetweenMore(items, answers, attempt, pending, i, i + 1, now);
      if keep { now := now[p.id := reply.value[p.id]]; } else { open := open + [p]; }
    }
    assert pending[..|pending|] == pending;
    AllTried(items, answers, attempt, attempt + 1, pending, now);
  }

  lemma {:induction false} OpenTokens(items: seq<Item>, answers: nat -> Reply, n: nat)
    requires forall p :: p in items ==> AreTokens(p.tokens)
    ensures forall p :: p in StillOpen(items, answers, n) ==> p in items && AreTokens(p.tokens)
  {
    hide AreTokens;
  }

  function Rejected(ps: seq<Item>, reply: Reply): seq<Item>
    requires forall p :: p in ps ==> AreTokens(p.tokens)
  {
    if ps == [] then []
    else
      var last := ps[|ps| - 1];
      assert ps == ps[..|ps| - 1] + [last];
      Rejected(ps[..|ps| - 1], reply) + (if Accepts(last, reply) then [] else [last])
  }

  lemma {:induction false} OpenLater(items: seq<Item>, answers: nat -> Reply, n: nat, next: nat)
    requires (forall p :: p in items ==> AreTokens(p.tokens)) && next == n + 1
    ensures Rejected(StillOpen(items, answers, n), answers(n)) == StillOpen(items, answers, next)
  {
    hide Accepts, AreTokens, FirstGood, Rejected, StillOpen;
    NothingOpen(answers, n, next);
    if items != [] {
      var front, last := items[..|items| - 1], items[|items| - 1];
      assert items == front + [last];
      OpenLater(front, answers, n, next);
      var open := StillOpen(front, answers, n);
      OpenEnd(items, front, last, answers, n);
      OpenEnd(items, front, last, answers, next);
      GoodStep(last, answers, n, next);
      if FirstGood(last, answers, n).None? {
        RejectedEnd(open, last, answers(n));
      } else {
        assert open + [] == open;
      }
    }
  }

  lemma {:induction false} NothingOpen(answers: nat -> Reply, n: nat, next: nat)
    ensures StillOpen([], answers, n) == [] && StillOpen([], answers, next) == [] && Rejected([], answers(n)) == []
  {
  }

  lemma {:induction false} OpenEnd(items: seq<Item>, front: seq<Item>, last: Item, answers: nat -> Reply, n: nat)
    requires (forall p :: p in items ==> AreTokens(p.tokens)) && items == front + [last]
    ensures last in items && (forall p :: p in front ==> p in items)
    ensures StillOpen(items, answers, n)
         == StillOpen(front, answers, n) + (if FirstGood(last, answers, n).None? then [last] else [])
  {
    hide AreTokens, FirstGood;
    assert items[..|items| - 1] == front && items[|items| - 1] == last;
  }

  lemma {:induction false} RejectedEnd(ps: seq<Item>, p: Item, reply: Reply)
    requires AreTokens(p.tokens) && forall q :: q in ps ==> AreTokens(q.tokens)
    ensures Rejected(ps + [p], reply) == Rejected(ps, reply) + (if Accepts(p, reply) then [] else [p])
  {
    hide AreTokens, Accepts;
    assert (ps + [p])[..|ps|] == ps;
  }

  lemma {:induction false} GoodStep(p: Item, answers: nat -> Reply, n: nat, next: nat)
    requires AreTokens(p.tokens) && next == n + 1
    ensures FirstGood(p, answers, next).None? <==> FirstGood(p, answers, n).None? && !Accepts(p, answers(n))
  {
    hide Preserves;
  }

  /** During an attempt: items tried have this attempt's answer if it is acceptable, the others what they had. */
  ghost predicate Between(items: seq<Item>, answers: nat -> Reply, n: nat, tried: seq<Item>, now: map<nat, string>)
    requires ValidItems(items)
  {
    && (forall p :: p in items ==>
          var good := if p in tried then FirstGood(p, answers, n + 1) else FirstGood(p, answers, n);
          (p.id in now <==> good.Some?) && (good.Some? ==> good == Some(now[p.id])))
    && (forall id :: id in now ==> exists p :: p in items && p.id == id)
  }

  lemma {:induction false} Partway(items: seq<Item>, answers: nat -> Reply, n: nat, result: map<nat, string>,
    pending: seq<Item>)
    requires ValidItems(items) && Accepted(items, answers, n, result)
    ensures Between(items, answers, n, [], result)
  {
    hide FirstGood, AreTokens;
  }

  lemma {:induction false} SameId(items: seq<Item>, p: Item, q: Item)
    requires ValidItems(items) && p in items && q in items && p.id == q.id
    ensures p == q
  {
    var i :| 0 <= i < |items| && items[i] == p;
    var j :| 0 <= j < |items| && items[j] == q;
    assert !(i < j) && !(j < i);
  }

  lemma {:induction false} BetweenMore(items: seq<Item>, answers: nat -> Reply, n: nat, pending: seq<Item>, i: nat,
    next: nat, now: map<nat, string>)
    requires ValidItems(items) && pending == StillOpen(items, answers, n) && i < |pending| && next == i + 1
    requires Between(items, answers, n, pending[..i], now) && pending[i] in items
    ensures Between(items, answers, n, pending[..next],
      if Accepts(pending[i], answers(n)) then now[pending[i].id := answers(n).value[pending[i].id]] else now)
  {
    hide Preserves, AreTokens, StillOpen;
    var p := pending[i];
    assert pending[..next] == pending[..i] + [p];
    assert p in pending && FirstGood(p, answers, n).None?;
    var later := if Accepts(p, answers(n)) then now[p.id := answers(n).value[p.id]] else now;
    forall q | q in items
      ensures var good := if q in pending[..next] then FirstGood(q, answers, n + 1) else FirstGood(q, answers, n);
        (q.id in later <==> good.Some?) && (good.Some? ==> good == Some(later[q.id]))
    {
      if q.id == p.id { SameId(items, p, q); }
    }
  }

  lemma {:induction false} AllTried(items: seq<Item>, answers: nat -> Reply, n: nat, next: nat, pending: seq<Item>,
    now: map<nat, string>)
    requires ValidItems(items) && next == n + 1 && pending == StillOpen(items, answers, n)
    requires Between(items, answers, n, pending, now)
    ensures Accepted(items, answers, next, now)
  {
    hide Preserves, AreTokens, StillOpen;
    forall p | p in items && p !in pending ensures FirstGood(p, answers, n) == FirstGood(p, answers, next) {
    }
  }

  lemma {:induction false} NoneOpen(items: seq<Item>, answers: nat -> Reply, n: nat)
    requires forall p :: p in items ==> AreTokens(p.tokens) && FirstGood(p, answers, n).Some?
    ensures StillOpen(items, answers, n) == []
  {
    hide FirstGood, AreTokens;
    if items != [] {
      assert items == items[..|items| - 1] + [items[|items| - 1]];
      NoneOpen(items[..|items| - 1], answers, n);
    }
  }

  /** When nothing is open, more attempts would change nothing. */
  lemma {:induction false} Settled(items: seq<Item>, answers: nat -> Reply, n: nat, all: nat, result: map<nat, string>,
    pending: seq<Item>)
    requires ValidItems(items) && n <= all && Accepted(items, answers, n, result)
    requires pending == StillOpen(items, answers, n)
    requires n == all || pending == []
    ensures Accepted(items, answers, all, result) && pending == StillOpen(items, answers, all)
  {
    hide FirstGood, AreTokens, StillOpen;
    if pending == [] {
      forall p | p in items
        ensures FirstGood(p, answers, n).Some? && FirstGood(p, answers, all) == FirstGood(p, answers, n)
      {
        assert p !in pending;
        GoodStays(p, answers, n, all);
      }
      NoneOpen(items, answers, all);
    }
  }

  lemma {:induction false} AcceptedPreserves(items: seq<Item>, answers: nat -> Reply, n: nat, result: map<nat, string>)
    requires ValidItems(items) && Accepted(items, answers, n, result)
    ensures forall p :: p in items && p.id in result ==> Preserves(result[p.id], p.tokens)
  {
    hide Preserves, FirstGood, AreTokens;
    forall p | p in items && p.id in result ensures Preserves(result[p.id], p.tokens) {
      GoodPreserves(p, answers, n);
    }
  }

  // ----- what may stand in a selected line -----

  predicate ValidTokens(plan: Plan) { forall e :: e in plan.prose ==> AreTokens(e.tokens) }

  /** The line is as it was, or holds a text with all the entry's tokens between its prefix and suffix. */
  ghost predicate Safe(e: Entry, line: string)
    requires AreTokens(e.tokens)
  {
    exists text :: line == Rebuilt(e, text) && (text == e.core || Preserves(text, e.tokens))
  }

  /** The reply has nothing for the entry, or its core, or a text that passes the check. */
  predicate Harmless(e: Entry, reply: Reply)
    requires AreTokens(e.tokens)
  {
    reply.Some? && e.lineIndex in reply.value ==>
      reply.value[e.lineIndex] == e.core || Preserves(reply.value[e.lineIndex], e.tokens)
  }

  lemma {:induction false} OneText(e: Entry, a: string, b: string)
    requires Rebuilt(e, a) == Rebuilt(e, b)
    ensures a == b
  {
    assert |a| == |b|;
    forall i | 0 <= i < |a| ensures a[i] == b[i] {
      assert Rebuilt(e, a)[|e.prefix| + i] == a[i] && Rebuilt(e, b)[|e.prefix| + i] == b[i];
    }
  }

  lemma {:induction false} SafeWhen(e: Entry, reply: Reply)
    requires AreTokens(e.tokens)
    ensures Safe(e, Rebuilt(e, Resolve(e, reply).text)) <==> Harmless(e, reply)
  {
    hide Preserves, Rebuilt;
    var text := Resolve(e, reply).text;
    if Safe(e, Rebuilt(e, text)) {
      var other :| Rebuilt(e, text) == Rebuilt(e, other) && (other == e.core || Preserves(other, e.tokens));
      OneText(e, text, other);
    }
  }

  /** All selected lines of the file are safe. */
  ghost predicate SafeFile(plan: Plan, limit: int, lines: seq<string>)
    requires ValidPlan(plan) && ValidTokens(plan) && |lines| == |plan.lines|
  {
    forall k :: 0 <= k < |Selected(plan, limit)| ==> SafeAt(plan, limit, lines, k)
  }

  ghost predicate SafeAt(plan: Plan, limit: int, lines: seq<string>, k: nat)
    requires ValidPlan(plan) && ValidTokens(plan) && |lines| == |plan.lines| && k < |Selected(plan, limit)|
  {
    var e := Selected(plan, limit)[k];
    assert e in plan.prose;
    Safe(e, lines[e.lineIndex])
  }

  predicate HarmlessAt(plan: Plan, replies: nat -> Reply, size: int, limit: int, k: nat)
    requires ValidTokens(plan) && k < |Selected(plan, limit)|
  {
    var e := Selected(plan, limit)[k];
    assert e in plan.prose;
    Harmless(e, replies(Batch(k, size)))
  }

  lemma {:induction false} SafeLineWhen(plan: Plan, replies: nat -> Reply, size: int, limit: int, lines: seq<string>,
    k: nat)
    requires ValidPlan(plan) && ValidTokens(plan) && |lines| == |plan.lines|
    requires Assembled(plan, Resolutions(plan, replies, size, limit), lines) && k < |Selected(plan, limit)|
    ensures SafeAt(plan, limit, lines, k) <==> HarmlessAt(plan, replies, size, limit, k)
  {
    hide Safe, Harmless, Rebuilt, Batch;
    var e := Selected(plan, limit)[k];
    assert e in plan.prose && Resolutions(plan, replies, size, limit)[k].entry == e;
    SafeWhen(e, replies(Batch(k, size)));
  }

  /** The file that comes out keeps every token exactly when no batch gave one of its own entries a text that drops
      one. */
  lemma {:induction false} SafeExactly(plan: Plan, replies: nat -> Reply, size: int, limit: int, lines: seq<string>)
    requires ValidPlan(plan) && ValidTokens(plan) && |lines| == |plan.lines|
    requires Assembled(plan, Resolutions(plan, replies, size, limit), lines)
    ensures SafeFile(plan, limit, lines)
       <==> forall k :: 0 <= k < |Selected(plan, limit)| ==> HarmlessAt(plan, replies, size, limit, k)
  {
    hide SafeAt, HarmlessAt, Assembled, Resolutions, Selected;
    forall k | 0 <= k < |Selected(plan, limit)|
      ensures SafeAt(plan, limit, lines, k) <==> HarmlessAt(plan, replies, size, limit, k)
    {
      SafeLineWhen(plan, replies, size, limit, lines, k);
    }
  }

  /** An answer without the code span is written to the file when the rewriter does not check. */
  lemma {:induction false} UncheckedAnswerDropsToken(lines: seq<string>)
    requires Assembled(LinePlan(), Resolutions(LinePlan(), BareReply(), 3, 0), lines) && |lines| == 1
    ensures ValidPlan(LinePlan()) && ValidTokens(LinePlan())
    ensures lines == ["- go"] && !SafeFile(LinePlan(), 0, lines)
  {
    var plan, e := LinePlan(), LinePlan().prose[0];
    assert Rebuilt(e, e.core) == "- run `a`";
    var rs := Resolutions(plan, BareReply(), 3, 0);
    assert rs[0] == Resolved(e, "go", true) && lines[0] == Rebuilt(e, "go");
    assert Rebuilt(e, "go") == "- go";
    assert ["`a`"][..0] == [] && Times(["`a`"], "`a`") == 1 && Occurrences("go", "`a`") == 0;
    assert !HarmlessAt(plan, BareReply(), 3, 0, 0);
    SafeExactly(plan, BareReply(), 3, 0, lines);
  }

  function LinePlan(): Plan { Plan(["- run `a`"], [Entry(0, "- ", "run `a`", "", ["`a`"])]) }

  function BareReply(): nat -> Reply { (g: nat) => Some(map[0 := "go"]) }

  // ----- with the rewriter that checks -----

  /** What is asked of the rewriter for one batch. */
  function ItemsOf(group: seq<Entry>): (r: seq<Item>)
    ensures |r| == |group| && forall k :: 0 <= k < |group| ==> r[k] == Item(group[k].lineIndex, group[k].tokens)
  {
    seq(|group|, k requires 0 <= k < |group| => Item(group[k].lineIndex, group[k].tokens))
  }

  /** The batch `g` of a list. */
  function GroupAt<T>(xs: seq<T>, size: int, g: nat): (r: seq<T>)
    ensures forall x :: x in r ==> x in xs
  {
    var step := Max(1, size);
    xs[Min(g * step, |xs|)..Min(g * step + step, |xs|)]
  }

  function BatchItems(plan: Plan, size: int, limit: int, g: nat): (r: seq<Item>)
    requires ValidPlan(plan) && ValidTokens(plan)
    ensures ValidItems(r)
  {
    var group := GroupAt(Selected(plan, limit), size, g);
    BatchIsValid(plan, size, limit, g);
    ItemsOf(group)
  }

  lemma {:induction false} BatchIsValid(plan: Plan, size: int, limit: int, g: nat)
    requires ValidPlan(plan) && ValidTokens(plan)
    ensures ValidItems(ItemsOf(GroupAt(Selected(plan, limit), size, g)))
  {
    hide AreTokens, ValidPlan, ValidTokens, GroupAt;
    var group := GroupAt(Selected(plan, limit), size, g);
    var start := GroupPart(plan, size, limit, g);
    PartInPlan(plan, group, start);
  }

  lemma {:induction false} GroupPart(plan: Plan, size: int, limit: int, g: nat) returns (start: nat)
    ensures var group := GroupAt(Selected(plan, limit), size, g);
      start + |group| <= |plan.prose| && group == plan.prose[start..start + |group|]
  {
    var chosen := Selected(plan, limit);
    start := Min(g * Max(1, size), |chosen|);
    assert chosen == plan.prose[..|chosen|];
  }

  lemma {:induction false} PartInPlan(plan: Plan, group: seq<Entry>, start: nat)
    requires ValidPlan(plan) && ValidTokens(plan) && start + |group| <= |plan.prose|
    requires group == plan.prose[start..start + |group|]
    ensures forall k :: 0 <= k < |group| ==> AreTokens(group[k].tokens)
    ensures forall j, k :: 0 <= j < k < |group| ==> group[j].lineIndex < group[k].lineIndex
  {
    hide AreTokens;
    forall k | 0 <= k < |group| ensures group[k] == plan.prose[start + k] && group[k] in plan.prose {
    }
  }

  /** Batch `g` comes back with the answers the rewriter accepted, over its attempts. */
  function Checked(plan: Plan, answers: nat -> nat -> Reply, retries: int, size: int, limit: int): nat -> Reply
    requires ValidPlan(plan) && ValidTokens(plan)
  {
    (g: nat) => Some(Given(BatchItems(plan, size, limit, g), answers(g), Attempts(retries)))
  }

  /** The first acceptable answer among the attempts of the entry's own batch, or its core. */
  function Chosen(e: Entry, answers: nat -> Reply, retries: int): string
    requires AreTokens(e.tokens)
  {
    var good := FirstGood(Item(e.lineIndex, e.tokens), answers, Attempts(retries));
    if good.Some? then good.value else e.core
  }

  lemma {:induction false} InOwnGroup<T>(xs: seq<T>, size: int, k: nat)
    requires k < |xs|
    ensures xs[k] in GroupAt(xs, size, Batch(k, size))
  {
    var step, g := Max(1, size), Batch(k, size);
    assert k == g * step + k % step;
    assert GroupAt(xs, size, g)[k % step] == xs[k];
  }

  lemma {:induction false} GivenIs(items: seq<Item>, answers: nat -> Reply, n: nat, p: Item)
    requires ValidItems(items) && p in items
    ensures AreTokens(p.tokens)
    ensures p.id in Given(items, answers, n) <==> FirstGood(p, answers, n).Some?
    ensures p.id in Given(items, answers, n) ==> FirstGood(p, answers, n) == Some(Given(items, answers, n)[p.id])
  {
    hide FirstGood, AreTokens, Given;
    GivenAre(items, answers, n);
  }

  lemma {:induction false} ChosenIs(plan: Plan, answers: nat -> nat -> Reply, retries: int, size: int, limit: int,
    k: nat)
    requires ValidPlan(plan) && ValidTokens(plan) && k < |Selected(plan, limit)|
    ensures var e := Selected(plan, limit)[k];
      && AreTokens(e.tokens)
      && Resolve(e, Checked(plan, answers, retries, size, limit)(Batch(k, size))).text
         == Chosen(e, answers(Batch(k, size)), retries)
  {
    hide FirstGood, Given, GroupAt, Batch, ValidPlan, AreTokens;
    var e, g := Selected(plan, limit)[k], Batch(k, size);
    assert e in plan.prose;
    var group, items := GroupAt(Selected(plan, limit), size, g), BatchItems(plan, size, limit, g);
    InOwnGroup(Selected(plan, limit), size, k);
    var j :| 0 <= j < |group| && group[j] == e;
    assert items[j] == Item(e.lineIndex, e.tokens) && items[j] in items;
    GivenIs(items, answers(g), Attempts(retries), items[j]);
  }

  lemma {:induction false} ChosenIsHarmless(e: Entry, answers: nat -> Reply, retries: int)
    requires AreTokens(e.tokens)
    ensures Chosen(e, answers, retries) == e.core || Preserves(Chosen(e, answers, retries), e.tokens)
  {
    hide Preserves;
    GoodPreserves(Item(e.lineIndex, e.tokens), answers, Attempts(retries));
  }

  /** The line holds the first acceptable answer of its own batch, or is what it was. */
  predicate ChosenAt(plan: Plan, answers: nat -> nat -> Reply, retries: int, size: int, limit: int, lines: seq<string>,
    k: nat)
    requires ValidPlan(plan) && ValidTokens(plan) && |lines| == |plan.lines| && k < |Selected(plan, limit)|
  {
    var e := Selected(plan, limit)[k];
    assert e in plan.prose;
    lines[e.lineIndex] == Rebuilt(e, Chosen(e, answers(Batch(k, size)), retries))
  }

  lemma {:induction false} ChosenLine(plan: Plan, answers: nat -> nat -> Reply, retries: int, size: int, limit: int,
    lines: seq<string>, k: nat)
    requires ValidPlan(plan) && ValidTokens(plan) && |lines| == |plan.lines| && k < |Selected(plan, limit)|
    requires Assembled(plan, Resolutions(plan, Checked(plan, answers, retries, size, limit), size, limit), lines)
    ensures ChosenAt(plan, answers, retries, size, limit, lines, k) && SafeAt(plan, limit, lines, k)
  {
    hide Chosen, Preserves, Checked, Batch, AreTokens;
    var e, rs := Selected(plan, limit)[k], Resolutions(plan, Checked(plan, answers, retries, size, limit), size, limit);
    assert e in plan.prose && rs[k].entry == e;
    ChosenIs(plan, answers, retries, size, limit, k);
    ChosenIsHarmless(e, answers(Batch(k, size)), retries);
  }

  // ----- the text that is written -----

  const NEWLINE := '\n'

  function JoinLines(lines: seq<string>): string {
    if |lines| <= 1 then (if lines == [] then "" else lines[0])
    else lines[0] + [NEWLINE] + JoinLines(lines[1..])
  }

  function SplitLines(text: string): (r: seq<string>)
    ensures r != [] && forall l :: l in r ==> NEWLINE !in l
  {
    if text == "" then [""]
    else
      var rest := SplitLines(text[1..]);
      if text[0] == NEWLINE then [""] + rest else [[text[0]] + rest[0]] + rest[1..]
  }

  lemma {:induction false} SplitFirst(line: string, rest: string)
    requires NEWLINE !in line
    ensures SplitLines(line + [NEWLINE] + rest) == [line] + SplitLines(rest)
    decreases |line|
  {
    var text := line + [NEWLINE] + rest;
    if line == "" {
      assert text[1..] == rest;
    } else {
      SplitFirst(line[1..], rest);
      assert text[1..] == line[1..] + [NEWLINE] + rest && text[0] == line[0] && line[0] in line;
      assert [line[0]] + line[1..] == line;
    }
  }

  lemma {:induction false} SplitOne(line: string)
    requires NEWLINE !in line
    ensures SplitLines(line) == [line]
  {
    if line != "" {
      SplitOne(line[1..]);
      assert line[0] in line && [line[0]] + line[1..] == line;
    }
  }

  /** Lines that are joined are read back as they were exactly when there are any and none holds a line break. */
  lemma {:induction false} JoinThenSplit(lines: seq<string>)
    ensures SplitLines(JoinLines(lines)) == lines <==> lines != [] && forall l :: l in lines ==> NEWLINE !in l
  {
    if |lines| == 1 {
      assert lines == [lines[0]];
      if NEWLINE !in lines[0] { SplitOne(lines[0]); }
    } else if |lines| > 1 {
      JoinThenSplit(lines[1..]);
      if NEWLINE !in lines[0] {
        SplitFirst(lines[0], JoinLines(lines[1..]));
        assert lines == [lines[0]] + lines[1..];
        SameTail(lines[0], SplitLines(JoinLines(lines[1..])), lines[1..]);
      } else {
        assert lines[0] in lines;
      }
    }
  }

  lemma {:induction false} SameTail<T>(x: T, a: seq<T>, b: seq<T>)
    ensures [x] + a == [x] + b <==> a == b
  {
    if [x] + a == [x] + b {
      assert ([x] + a)[1..] == a && ([x] + b)[1..] == b;
    }
  }

  predicate Unselected(plan: Plan, limit: int, i: nat) {
    forall k :: 0 <= k < |Selected(plan, limit)| ==> Selected(plan, limit)[k].lineIndex != i
  }

  /** The plan's lines come from cutting a text at its line breaks. */
  predicate OneLiners(plan: Plan) { plan.lines != [] && forall l :: l in plan.lines ==> NEWLINE !in l }

  predicate ChosenIsLine(plan: Plan, answers: nat -> nat -> Reply, retries: int, size: int, limit: int, k: nat)
    requires ValidTokens(plan) && k < |Selected(plan, limit)|
  {
    var e := Selected(plan, limit)[k];
    assert e in plan.prose;
    NEWLINE !in Chosen(e, answers(Batch(k, size)), retries)
  }

  lemma {:induction false} RebuiltIsLine(e: Entry, text: string)
    requires NEWLINE !in Rebuilt(e, e.core)
    ensures NEWLINE in Rebuilt(e, text) <==> NEWLINE in text
  {
    assert forall c :: c in e.prefix || c in e.suffix ==> c in Rebuilt(e, e.core);
  }

  /** The text that is written has the lines of the file exactly when no answer chosen has a line break of its own. */
  lemma {:induction false} WrittenLines(plan: Plan, answers: nat -> nat -> Reply, retries: int, size: int, limit: int,
    lines: seq<string>)
    requires ValidPlan(plan) && ValidTokens(plan) && OneLiners(plan) && |lines| == |plan.lines|
    requires forall k :: 0 <= k < |Selected(plan, limit)| ==> ChosenAt(plan, answers, retries, size, limit, lines, k)
    requires forall i :: 0 <= i < |lines| && Unselected(plan, limit, i) ==> lines[i] == plan.lines[i]
    ensures SplitLines(JoinLines(lines)) == lines
       <==> forall k :: 0 <= k < |Selected(plan, limit)| ==> ChosenIsLine(plan, answers, retries, size, limit, k)
  {
    hide Selected, Chosen, Batch, ValidTokens;
    JoinThenSplit(lines);
    forall k | 0 <= k < |Selected(plan, limit)|
      ensures var e := Selected(plan, limit)[k];
        e.lineIndex < |lines|
        && (NEWLINE !in lines[e.lineIndex] <==> ChosenIsLine(plan, answers, retries, size, limit, k))
    {
      SelectedLine(plan, answers, retries, size, limit, lines, k);
    }
    if forall k :: 0 <= k < |Selected(plan, limit)| ==> ChosenIsLine(plan, answers, retries, size, limit, k) {
      forall i | 0 <= i < |lines| ensures NEWLINE !in lines[i] {
        if Unselected(plan, limit, i) {
          assert plan.lines[i] in plan.lines;
        } else {
          var k :| 0 <= k < |Selected(plan, limit)| && Selected(plan, limit)[k].lineIndex == i;
          assert ChosenIsLine(plan, answers, retries, size, limit, k);
        }
      }
    }
  }

  lemma {:induction false} SelectedLine(plan: Plan, answers: nat -> nat -> Reply, retries: int, size: int, limit: int,
    lines: seq<string>, k: nat)
    requires ValidPlan(plan) && ValidTokens(plan) && OneLiners(plan) && |lines| == |plan.lines|
    requires k < |Selected(plan, limit)| && ChosenAt(plan, answers, retries, size, limit, lines, k)
    ensures var e := Selected(plan, limit)[k];
      e.lineIndex < |lines|
      && (NEWLINE !in lines[e.lineIndex] <==> ChosenIsLine(plan, answers, retries, size, limit, k))
  {
    hide Chosen, Batch, Rebuilt;
    var e := Selected(plan, limit)[k];
    assert e in plan.prose && plan.lines[e.lineIndex] in plan.lines;
    RebuiltIsLine(e, Chosen(e, answers(Batch(k, size)), retries));
  }

  /**
   Rewrite a file with the rewriter that checks its answers. Whatever calls fail and whatever they answer, every
   selected line is its original or its prefix, a text that keeps all its tokens, and its suffix: the first
   acceptable answer to its own batch. No other line is touched. The text written has these lines exactly when no
   answer chosen has a line break of its own.
   */
  method RewriteFile(plan: Plan, answers: nat -> nat -> Reply, retries: int, chunkSize: int, concurrency: int,
    limit: int)
    returns (content: string, lines: seq<string>, attempted: nat, changed: nat, fallback: nat)
    requires ValidPlan(plan) && ValidTokens(plan) && OneLiners(plan)
    ensures content == JoinLines(lines)
    ensures SplitLines(content) == lines
       <==> forall k :: 0 <= k < |Selected(plan, limit)| ==> ChosenIsLine(plan, answers, retries, chunkSize, limit, k)
    ensures |lines| == |plan.lines| && SafeFile(plan, limit, lines)
    ensures forall k :: 0 <= k < |Selected(plan, limit)| ==>
      ChosenAt(plan, answers, retries, chunkSize, limit, lines, k)
    ensures forall i :: 0 <= i < |lines| && Unselected(plan, limit, i) ==> lines[i] == plan.lines[i]
    ensures attempted == if 0 < limit < |plan.prose| then limit else |plan.prose|
    ensures Selected(plan, limit) == plan.prose[..attempted] && changed == Differing(plan.lines, lines)
    ensures fallback == Failures(Resolutions(plan, Checked(plan, answers, retries, chunkSize, limit), chunkSize, limit))
  {
    hide Failures, OneLiners, JoinLines, SplitLines, ChosenIsLine, ChosenAt, SafeAt, Assembled, Resolutions, Differing,
         Selected, ValidPlan, ValidTokens;
    ghost var replies := Checked(plan, answers, retries, chunkSize, limit);
    lines, attempted, changed, fallback :=
      RewriteAll(plan, Checked(plan, answers, retries, chunkSize, limit), chunkSize, concurrency, limit);
    forall k | 0 <= k < |Selected(plan, limit)|
      ensures ChosenAt(plan, answers, retries, chunkSize, limit, lines, k) && SafeAt(plan, limit, lines, k)
    {
      ChosenLine(plan, answers, retries, chunkSize, limit, lines, k);
    }
    UnselectedStay(plan, replies, chunkSize, limit, lines);
    WrittenLines(plan, answers, retries, chunkSize, limit, lines);
    content := JoinLines(lines);
  }

  lemma {:induction false} UnselectedStay(plan: Plan, replies: nat -> Reply, size: int, limit: int, lines: seq<string>)
    requires |lines| == |plan.lines| && Assembled(plan, Resolutions(plan, replies, size, limit), lines)
    ensures forall i :: 0 <= i < |lines| && Unselected(plan, limit, i) ==> lines[i] == plan.lines[i]
  {
    hide Selected;
    var rs := Resolutions(plan, replies, size, limit);
    forall i | 0 <= i < |lines| && Unselected(plan, limit, i) ensures lines[i] == plan.lines[i] {
      forall k | 0 <= k < |rs| ensures rs[k].entry.lineIndex != i {
        assert rs[k].entry == Selected(plan, limit)[k];
      }
    }
  }
}
