/**
 Workers that share one counter: every interleaving hands out each index once and fills each slot with its own result.
 */
module WorkerPool {
  import opened Basics

  /** Between two awaits a worker is about to claim, waits for its call, or has stopped. */
  datatype Worker = Ready | Running(index: nat) | Stopped

  datatype Pool<R> = Pool(next: nat, workers: seq<Worker>, results: seq<Option<R>>)

  function Width(limit: int, count: nat): nat { Max(1, Min(limit, count)) }

  function Start<R>(count: nat, limit: int): Pool<R> {
    Pool(0, seq(Width(limit, count), _ => Ready), seq(count, _ => None))
  }

  // ----- steps -----

  /** A worker takes the next index, or stops when there is none. */
  function Claim<R>(s: Pool<R>, w: nat): Pool<R>
    requires w < |s.workers| && s.workers[w].Ready?
  {
    s.(next := s.next + 1, workers := s.workers[w := if s.next >= |s.results| then Stopped else Running(s.next)])
  }

  /** A call comes back and its result goes to the slot of the worker's index. */
  function Finish<R>(s: Pool<R>, w: nat, r: R): Pool<R>
    requires w < |s.workers| && s.workers[w].Running? && s.workers[w].index < |s.results|
  {
    s.(workers := s.workers[w := Ready], results := s.results[s.workers[w].index := Some(r)])
  }

  /** One step of some worker; call `i` returns `outcome(i)`, whenever it does. */
  ghost predicate Step<R(!new)>(s: Pool<R>, t: Pool<R>, outcome: nat -> R) {
    exists w: nat :: w < |s.workers| && StepOf(s, t, w, outcome)
  }

  predicate StepOf<R(==)>(s: Pool<R>, t: Pool<R>, w: nat, outcome: nat -> R)
    requires w < |s.workers|
  {
    match s.workers[w]
    case Ready => t == Claim(s, w)
    case Running(i) => i < |s.results| && t == Finish(s, w, outcome(i))
    case Stopped => false
  }

  // ----- what every step keeps -----

  /** Claimed indices are in flight with one worker or done; indices beyond the counter are untouched. */
  ghost predicate Sound<R(!new)>(s: Pool<R>, outcome: nat -> R) {
    && (forall w :: 0 <= w < |s.workers| && s.workers[w].Running? ==>
          s.workers[w].index < s.next && s.workers[w].index < |s.results| && s.results[s.workers[w].index].None?)
    && (forall v, w :: 0 <= v < w < |s.workers| && s.workers[v].Running? && s.workers[w].Running? ==>
          s.workers[v].index != s.workers[w].index)
    && (forall i :: 0 <= i < |s.results| && i >= s.next ==> s.results[i].None?)
    && (forall i :: 0 <= i < |s.results| && s.results[i].Some? ==> s.results[i].value == outcome(i))
    && (forall i :: 0 <= i < |s.results| && i < s.next && s.results[i].None? ==> InFlight(s, i))
    && (s.next < |s.results| ==> forall w :: 0 <= w < |s.workers| ==> !s.workers[w].Stopped?)
  }

  predicate InFlight<R>(s: Pool<R>, i: nat) { exists w :: 0 <= w < |s.workers| && s.workers[w] == Running(i) }

  lemma {:induction false} StartSound<R(!new)>(count: nat, limit: int, outcome: nat -> R)
    ensures Sound(Start<R>(count, limit), outcome) && |Start<R>(count, limit).workers| == Width(limit, count)
  {
  }

  lemma {:induction false} StepSound<R(!new)>(s: Pool<R>, t: Pool<R>, w: nat, outcome: nat -> R)
    requires Sound(s, outcome) && w < |s.workers| && StepOf(s, t, w, outcome)
    ensures Sound(t, outcome) && |t.workers| == |s.workers| && |t.results| == |s.results|
  {
    var n := |s.results|;
    forall i | 0 <= i < n && i < t.next && t.results[i].None? ensures InFlight(t, i) {
      if s.workers[w].Ready? && i == s.next {
        assert t.workers[w] == Running(i);
      } else {
        var v :| 0 <= v < |s.workers| && s.workers[v] == Running(i);
        assert v != w && t.workers[v] == Running(i);
      }
    }
  }

  // ----- every run ends -----

  function Load(workers: seq<Worker>): nat {
    if workers == [] then 0
    else
      Load(workers[..|workers| - 1])
      + match workers[|workers| - 1] case Running(_) => 2 case Ready => 1 case Stopped => 0
  }

  /** An upper bound on the steps still to come. */
  function Remaining<R>(s: Pool<R>): nat { 3 * Max(|s.results| - s.next, 0) + Load(s.workers) }

  function Weight(w: Worker): nat { match w case Running(_) => 2 case Ready => 1 case Stopped => 0 }

  lemma {:induction false} LoadUpdate(workers: seq<Worker>, w: nat, x: Worker)
    requires w < |workers|
    ensures Load(workers[w := x]) == Load(workers) - Weight(workers[w]) + Weight(x)
  {
    var n := |workers| - 1;
    if w < n {
      LoadUpdate(workers[..n], w, x);
      assert workers[w := x][..n] == workers[..n][w := x];
    } else {
      assert workers[w := x][..n] == workers[..n];
    }
  }

  lemma {:induction false} StepShrinks<R(!new)>(s: Pool<R>, t: Pool<R>, w: nat, outcome: nat -> R)
    requires w < |s.workers| && StepOf(s, t, w, outcome)
    ensures Remaining(t) < Remaining(s)
  {
    LoadUpdate(s.workers, w, t.workers[w]);
  }

  predicate Done<R>(s: Pool<R>) { forall w :: 0 <= w < |s.workers| ==> s.workers[w].Stopped? }

  /** A pool that is not done can always go on. */
  lemma {:induction false} NeverStuck<R(!new)>(s: Pool<R>, outcome: nat -> R)
    requires Sound(s, outcome) && !Done(s)
    ensures exists t: Pool<R> :: Step(s, t, outcome)
  {
    var w: nat :| w < |s.workers| && !s.workers[w].Stopped?;
    var t := match s.workers[w] case Ready => Claim(s, w) case Running(i) => Finish(s, w, outcome(i)) case Stopped => s;
    assert StepOf(s, t, w, outcome);
    assert Step(s, t, outcome);
  }

  /** Once all workers have stopped, every slot holds the result of its own call. */
  lemma {:induction false} DoneIsFull<R(!new)>(s: Pool<R>, outcome: nat -> R)
    requires Sound(s, outcome) && Done(s) && s.workers != []
    ensures forall i :: 0 <= i < |s.results| ==> s.results[i] == Some(outcome(i))
  {
    assert s.workers[0].Stopped?;
    forall i | 0 <= i < |s.results| ensures s.results[i].Some? {
      assert !InFlight(s, i);
    }
  }

  // ----- whole runs -----

  /** A run from the start, step by step, with the worker that took each step. */
  ghost predicate Run<R(!new)>(states: seq<Pool<R>>, steps: seq<nat>, count: nat, limit: int, outcome: nat -> R) {
    && |states| == |steps| + 1 && states[0] == Start<R>(count, limit)
    && (forall k :: 0 <= k < |steps| ==>
          steps[k] < |states[k].workers| && StepOf(states[k], states[k + 1], steps[k], outcome))
  }

  lemma {:induction false} RunSound<R(!new)>(states: seq<Pool<R>>, steps: seq<nat>, count: nat, limit: int,
    outcome: nat -> R, k: nat)
    requires Run(states, steps, count, limit, outcome) && k <= |steps|
    ensures Sound(states[k], outcome) && |states[k].workers| == Width(limit, count) && |states[k].results| == count
    ensures k + Remaining(states[k]) <= 3 * count + Width(limit, count)
  {
    hide Sound, StepOf, Start, Remaining;
    if k == 0 {
      StartSound(count, limit, outcome);
      StartRemaining<R>(count, limit);
    } else {
      RunSound(states, steps, count, limit, outcome, k - 1);
      assert StepOf(states[k - 1], states[k - 1 + 1], steps[k - 1], outcome);
      StepSound(states[k - 1], states[k], steps[k - 1], outcome);
      StepShrinks(states[k - 1], states[k], steps[k - 1], outcome);
    }
  }

  lemma {:induction false} LoadReady(n: nat)
    ensures Load(seq(n, _ => Ready)) == n
  {
    if n > 0 {
      assert seq(n, _ => Ready)[..n - 1] == seq(n - 1, _ => Ready);
      LoadReady(n - 1);
    }
  }

  lemma {:induction false} StartRemaining<R>(count: nat, limit: int)
    ensures Remaining(Start<R>(count, limit)) == 3 * count + Width(limit, count)
    ensures |Start<R>(count, limit).results| == count
  {
    LoadReady(Width(limit, count));
    assert Start<R>(count, limit).workers == seq(Width(limit, count), _ => Ready);
  }

  /** No schedule goes on forever, and all that are complete end with the same, full results. */
  lemma {:induction false} RunsEndFull<R(!new)>(states: seq<Pool<R>>, steps: seq<nat>, count: nat, limit: int,
    outcome: nat -> R)
    requires Run(states, steps, count, limit, outcome)
    ensures |steps| <= 3 * count + Width(limit, count)
    ensures Done(states[|steps|]) ==> |states[|steps|].results| == count
    ensures Done(states[|steps|]) ==> forall i :: 0 <= i < count ==> states[|steps|].results[i] == Some(outcome(i))
    ensures !Done(states[|steps|]) ==> exists t: Pool<R> :: Step(states[|steps|], t, outcome)
  {
    hide Sound, Start, StepOf, Step, Done;
    var last := states[|steps|];
    RunSound(states, steps, count, limit, outcome, |steps|);
    if Done(last) { DoneIsFull(last, outcome); } else { NeverStuck(last, outcome); }
  }

  /** The step claims an index: which one. */
  predicate Claims<R>(s: Pool<R>, w: nat, i: nat) {
    w < |s.workers| && s.workers[w].Ready? && s.next == i && i < |s.results|
  }

  lemma {:induction false} CounterGrows<R(!new)>(states: seq<Pool<R>>, steps: seq<nat>, count: nat, limit: int,
    outcome: nat -> R, j: nat, k: nat)
    requires Run(states, steps, count, limit, outcome) && j <= k <= |steps|
    ensures states[j].next <= states[k].next
    decreases k
  {
    if j < k {
      CounterGrows(states, steps, count, limit, outcome, j, k - 1);
      assert StepOf(states[k - 1], states[k - 1 + 1], steps[k - 1], outcome);
    }
  }

  /** No index is claimed twice in a run. */
  lemma {:induction false} ClaimedOnce<R(!new)>(states: seq<Pool<R>>, steps: seq<nat>, count: nat, limit: int,
    outcome: nat -> R, j: nat, k: nat, i: nat)
    requires Run(states, steps, count, limit, outcome) && j < k < |steps|
    requires Claims(states[j], steps[j], i)
    ensures !Claims(states[k], steps[k], i)
  {
    assert StepOf(states[j], states[j + 1], steps[j], outcome);
    CounterGrows(states, steps, count, limit, outcome, j + 1, k);
  }

  function InFlightCount(workers: seq<Worker>): nat {
    if workers == [] then 0
    else InFlightCount(workers[..|workers| - 1]) + (if workers[|workers| - 1].Running? then 1 else 0)
  }

  lemma {:induction false} AtMostAll(workers: seq<Worker>)
    ensures InFlightCount(workers) <= |workers|
  {
    if workers != [] { AtMostAll(workers[..|workers| - 1]); }
  }

  /** Never more calls in flight than the limit allows, and one at a time where it allows none. */
  lemma {:induction false} InFlightWithinLimit<R(!new)>(states: seq<Pool<R>>, steps: seq<nat>, count: nat, limit: int,
    outcome: nat -> R, k: nat)
    requires Run(states, steps, count, limit, outcome) && k <= |steps|
    ensures InFlightCount(states[k].workers) <= Max(1, limit)
  {
    RunSound(states, steps, count, limit, outcome, k);
    AtMostAll(states[k].workers);
  }

  // ----- one run, with the scheduler's choices left open -----

  /** Let any worker that can go on take the next step, until all have stopped. */
  method MapPool<R(!new)>(count: nat, limit: int, outcome: nat -> R) returns (results: seq<R>)
    ensures |results| == count && forall i :: 0 <= i < count ==> results[i] == outcome(i)
  {
    hide Sound, Start, StepOf, Remaining;
    var s := Start<R>(count, limit);
    StartSound(count, limit, outcome);
    StartRemaining<R>(count, limit);
    while exists w :: 0 <= w < |s.workers| && !s.workers[w].Stopped?
      invariant Sound(s, outcome) && |s.workers| == Width(limit, count) && |s.results| == count
      decreases Remaining(s)
    {
      var w: nat :| 0 <= w < |s.workers| && !s.workers[w].Stopped?;
      ghost var before := s;
      RunningFits(s, w, outcome);
      if s.workers[w].Ready? {
        s := Claim(s, w);
      } else {
        s := Finish(s, w, outcome(s.workers[w].index));
      }
      StepIs(before, s, w, outcome);
      StepSound(before, s, w, outcome);
      StepShrinks(before, s, w, outcome);
    }
    DoneIsFull(s, outcome);
    results := seq(count, i requires 0 <= i < |s.results| && s.results[i].Some? => s.results[i].value);
  }

  lemma {:induction false} RunningFits<R(!new)>(s: Pool<R>, w: nat, outcome: nat -> R)
    requires Sound(s, outcome) && w < |s.workers|
    ensures s.workers[w].Running? ==> s.workers[w].index < |s.results|
  {
  }

  lemma {:induction false} StepIs<R(!new)>(s: Pool<R>, t: Pool<R>, w: nat, outcome: nat -> R)
    requires w < |s.workers| && !s.workers[w].Stopped? && (s.workers[w].Running? ==> s.workers[w].index < |s.results|)
    requires t == match s.workers[w]
                  case Running(i) => Finish(s, w, outcome(i))
                  case _ => if s.workers[w].Ready? then Claim(s, w) else s
    ensures StepOf(s, t, w, outcome)
  {
  }
}
