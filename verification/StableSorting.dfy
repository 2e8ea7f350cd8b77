/**
 A stable sort, and what it needs of its comparator.
 */
module StableSorting {
  /** Put `x` behind everything it does not have to pass. */
  function Insert<T>(xs: seq<T>, x: T, after: (T, T) -> bool): seq<T> {
    if xs != [] && after(xs[|xs| - 1], x) then Insert(xs[..|xs| - 1], x, after) + [xs[|xs| - 1]]
    else xs + [x]
  }

  function StableSort<T>(xs: seq<T>, after: (T, T) -> bool): seq<T> {
    if xs == [] then [] else Insert(StableSort(xs[..|xs| - 1], after), xs[|xs| - 1], after)
  }

  ghost predicate Sorted<T>(xs: seq<T>, after: (T, T) -> bool) {
    forall i, j :: 0 <= i < j < |xs| ==> !after(xs[i], xs[j])
  }

  /** What the sort needs of its comparator to have a sorted result. */
  ghost predicate Consistent<T(!new)>(after: (T, T) -> bool) {
    && (forall x, y :: after(x, y) ==> !after(y, x))
    && (forall x, y, z :: !after(x, y) && !after(y, z) ==> !after(x, z))
  }

  /** The same of the elements at hand only. */
  ghost predicate ConsistentOn<T>(xs: seq<T>, after: (T, T) -> bool) {
    && (forall x, y :: x in xs && y in xs && after(x, y) ==> !after(y, x))
    && (forall x, y, z :: x in xs && y in xs && z in xs && !after(x, y) && !after(y, z) ==> !after(x, z))
  }

  lemma {:induction false} InsertKeeps<T>(xs: seq<T>, x: T, after: (T, T) -> bool)
    ensures multiset(Insert(xs, x, after)) == multiset(xs) + multiset{x}
  {
    if xs != [] && after(xs[|xs| - 1], x) {
      InsertKeeps(xs[..|xs| - 1], x, after);
      assert xs == xs[..|xs| - 1] + [xs[|xs| - 1]];
    }
  }

  /** Sorting loses and invents nothing, whatever the comparator. */
  lemma {:induction false} SortKeeps<T>(xs: seq<T>, after: (T, T) -> bool)
    ensures multiset(StableSort(xs, after)) == multiset(xs)
  {
    hide Insert;
    if xs != [] {
      var front, x := xs[..|xs| - 1], xs[|xs| - 1];
      SortKeeps(front, after);
      InsertKeeps(StableSort(front, after), x, after);
      assert StableSort(xs, after) == Insert(StableSort(front, after), x, after);
      assert xs == front + [x];
    }
  }

  lemma {:induction false} InsertSorts<T>(xs: seq<T>, x: T, after: (T, T) -> bool)
    requires ConsistentOn(xs + [x], after) && Sorted(xs, after)
    ensures Sorted(Insert(xs, x, after), after)
  {
    var n := |xs| - 1;
    assert forall y :: y in xs ==> y in xs + [x];
    if xs != [] && after(xs[n], x) {
      var r := Insert(xs[..n], x, after);
      assert forall y :: y in xs[..n] + [x] ==> y in xs + [x];
      InsertSorts(xs[..n], x, after);
      InsertKeeps(xs[..n], x, after);
      forall i | 0 <= i < |r| ensures !after(r[i], xs[n]) {
        assert r[i] in multiset(xs[..n]) + multiset{x};
        assert x in xs + [x] && xs[n] in xs;
      }
    } else if xs != [] {
      forall i | 0 <= i < |xs| ensures !after(xs[i], x) {
        assert !after(xs[n], x) && (i < n ==> !after(xs[i], xs[n]));
        assert x in xs + [x] && xs[i] in xs;
      }
    }
  }

  lemma {:induction false} SortSorts<T>(xs: seq<T>, after: (T, T) -> bool)
    requires ConsistentOn(xs, after)
    ensures Sorted(StableSort(xs, after), after)
  {
    hide Insert;
    if xs != [] {
      var front, x := xs[..|xs| - 1], xs[|xs| - 1];
      var sorted := StableSort(front, after);
      SortSorts(front, after);
      SortKeeps(front, after);
      assert forall y :: y in sorted + [x] ==> y in multiset(front) || y == x;
      InsertSorts(sorted, x, after);
    }
  }

  /** What is in order already stays as it is. */
  lemma {:induction false} SortOfSorted<T>(xs: seq<T>, after: (T, T) -> bool)
    requires Sorted(xs, after)
    ensures StableSort(xs, after) == xs
  {
    if xs != [] {
      SortOfSorted(xs[..|xs| - 1], after);
      assert xs == xs[..|xs| - 1] + [xs[|xs| - 1]];
    }
  }

  // ----- the one stable result -----

  /** Neither has to stand behind the other. */
  predicate Ties<T>(x: T, e: T, after: (T, T) -> bool) { !after(x, e) && !after(e, x) }

  /** The elements that tie with `e`, in order. */
  function Tied<T>(xs: seq<T>, e: T, after: (T, T) -> bool): seq<T> {
    if xs == [] then [] else (if Ties(xs[0], e, after) then [xs[0]] else []) + Tied(xs[1..], e, after)
  }

  /** In order, the same elements, and those that tie in the order they came in. */
  ghost predicate StablySorted<T>(xs: seq<T>, ys: seq<T>, after: (T, T) -> bool) {
    && multiset(ys) == multiset(xs) && Sorted(ys, after)
    && forall e :: e in xs ==> Tied(ys, e, after) == Tied(xs, e, after)
  }

  lemma {:induction false} TiedAppend<T>(a: seq<T>, b: seq<T>, e: T, after: (T, T) -> bool)
    ensures Tied(a + b, e, after) == Tied(a, e, after) + Tied(b, e, after)
  {
    if a == [] {
      assert a + b == b;
    } else {
      assert (a + b)[1..] == a[1..] + b;
      TiedAppend(a[1..], b, e, after);
    }
  }

  lemma {:induction false} TiedOne<T>(x: T, e: T, after: (T, T) -> bool)
    ensures Tied([x], e, after) == if Ties(x, e, after) then [x] else []
  {
    assert [x][1..] == [];
  }

  lemma {:induction false} InsertStable<T>(xs: seq<T>, x: T, e: T, after: (T, T) -> bool)
    requires ConsistentOn(xs + [x, e], after)
    ensures Tied(Insert(xs, x, after), e, after) == Tied(xs, e, after) + Tied([x], e, after)
  {
    hide Tied;
    TiedAppend(xs, [x], e, after);
    if xs != [] && after(xs[|xs| - 1], x) {
      var front, last := xs[..|xs| - 1], xs[|xs| - 1];
      assert xs == front + [last];
      assert forall y :: y in front + [x, e] ==> y in xs + [x, e];
      InsertStable(front, x, e, after);
      TiedAppend(front, [last], e, after);
      TiedAppend(Insert(front, x, after), [last], e, after);
      TiedOne(x, e, after);
      TiedOne(last, e, after);
      assert last in xs + [x, e] && x in xs + [x, e] && e in xs + [x, e];
      assert !(Ties(last, e, after) && Ties(x, e, after));
    }
  }

  lemma {:induction false} SortStable<T>(xs: seq<T>, after: (T, T) -> bool)
    requires ConsistentOn(xs, after)
    ensures StablySorted(xs, StableSort(xs, after), after)
  {
    SortKeeps(xs, after);
    SortSorts(xs, after);
    forall e | e in xs ensures Tied(StableSort(xs, after), e, after) == Tied(xs, e, after) {
      SortStableFor(xs, e, after);
    }
  }

  lemma {:induction false} SortStableFor<T>(xs: seq<T>, e: T, after: (T, T) -> bool)
    requires ConsistentOn(xs + [e], after)
    ensures Tied(StableSort(xs, after), e, after) == Tied(xs, e, after)
  {
    hide Tied, Insert;
    if xs != [] {
      var front, x := xs[..|xs| - 1], xs[|xs| - 1];
      var sorted := StableSort(front, after);
      assert xs == front + [x];
      assert forall y :: y in front + [e] ==> y in xs + [e];
      SortStableFor(front, e, after);
      SortKeeps(front, after);
      assert forall y :: y in sorted + [x, e] ==> y in multiset(front) || y == x || y == e;
      assert forall y :: y in sorted + [x, e] ==> y in xs + [e];
      InsertStable(sorted, x, e, after);
      TiedAppend(front, [x], e, after);
    }
  }

  lemma {:induction false} TiedRest<T>(a: seq<T>, e: T, after: (T, T) -> bool)
    requires a != []
    ensures Tied(a, e, after) == (if Ties(a[0], e, after) then [a[0]] else []) + Tied(a[1..], e, after)
  {
  }

  lemma {:induction false} SameRest<T>(head: seq<T>, a: seq<T>, b: seq<T>)
    requires head + a == head + b
    ensures a == b
  {
    assert (head + a)[|head|..] == a && (head + b)[|head|..] == b;
  }

  /** The first elements come before each other, so they tie, and tied elements stand in the same order. */
  lemma {:induction false} SameStart<T>(a: seq<T>, b: seq<T>, after: (T, T) -> bool)
    requires a != [] && b != [] && a[0] in b && b[0] in a && Sorted(a, after) && Sorted(b, after)
    requires !after(a[0], a[0]) && !after(b[0], b[0]) && Tied(a, a[0], after) == Tied(b, a[0], after)
    ensures a[0] == b[0]
  {
    hide Tied;
    var x, y := a[0], b[0];
    FirstNotAfter(a, y, after);
    FirstNotAfter(b, x, after);
    TiedRest(a, x, after);
    TiedRest(b, x, after);
    assert Tied(a, x, after)[0] == x && Tied(b, x, after)[0] == y;
  }

  lemma {:induction false} SameBag<T>(a: seq<T>, b: seq<T>)
    requires multiset(a) == multiset(b)
    ensures |a| == |b| && (a != [] ==> a[0] in b && b[0] in a)
    ensures a != [] && a[0] == b[0] ==> multiset(a[1..]) == multiset(b[1..])
  {
    assert |multiset(a)| == |a| && |multiset(b)| == |b|;
    if a != [] {
      assert a == [a[0]] + a[1..] && b == [b[0]] + b[1..];
      assert a[0] in multiset(b) && b[0] in multiset(a);
      assert multiset(a[1..]) == multiset(a) - multiset{a[0]} && multiset(b[1..]) == multiset(b) - multiset{b[0]};
    }
  }

  lemma {:induction false} SortedRest<T>(a: seq<T>, after: (T, T) -> bool)
    requires a != [] && Sorted(a, after)
    ensures Sorted(a[1..], after)
  {
  }

  /** Two sorted lists of the same elements, those that tie in the same order, are one list. */
  lemma {:induction false} SortedOnce<T>(a: seq<T>, b: seq<T>, after: (T, T) -> bool)
    requires multiset(a) == multiset(b) && Sorted(a, after) && Sorted(b, after)
    requires forall x :: x in a ==> !after(x, x)
    requires forall e :: e in a ==> Tied(a, e, after) == Tied(b, e, after)
    ensures a == b
  {
    hide Tied, Ties, Sorted;
    SameBag(a, b);
    if a != [] {
      SameStart(a, b, after);
      SortedRest(a, after);
      SortedRest(b, after);
      forall e | e in a[1..] ensures Tied(a[1..], e, after) == Tied(b[1..], e, after) {
        TiedRest(a, e, after);
        TiedRest(b, e, after);
        SameRest(if Ties(a[0], e, after) then [a[0]] else [], Tied(a[1..], e, after), Tied(b[1..], e, after));
      }
      SortedOnce(a[1..], b[1..], after);
      assert a == [a[0]] + a[1..] && b == [b[0]] + b[1..];
    }
  }

  lemma {:induction false} FirstNotAfter<T>(a: seq<T>, y: T, after: (T, T) -> bool)
    requires Sorted(a, after) && y in a && !after(y, y)
    ensures !after(a[0], y)
  {
    var i :| 0 <= i < |a| && a[i] == y;
  }

  /** Whatever stable sorting algorithm is used, this is what comes out. */
  lemma {:induction false} StableSortIsOnly<T>(xs: seq<T>, ys: seq<T>, after: (T, T) -> bool)
    requires ConsistentOn(xs, after) && StablySorted(xs, ys, after)
    ensures ys == StableSort(xs, after)
  {
    hide Tied;
    SortStable(xs, after);
    forall x | x in ys ensures x in xs && !after(x, x) {
      assert x in multiset(ys);
    }
    SortedOnce(ys, StableSort(xs, after), after);
  }
}
