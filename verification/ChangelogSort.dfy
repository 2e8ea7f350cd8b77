/**
 The order of version titles.
 */
module ChangelogSort {
  /** One dot-separated part of a title, read as a number where it is one. */
  datatype Part = Num(n: int) | NotANumber

  type Version = seq<Part>

  function PartAt(v: Version, i: nat): Part { if i < |v| then v[i] else Num(0) }

  function Longer(l: Version, r: Version): nat { if |l| >= |r| then |l| else |r| }

  /** The difference at the first part that differs; one that is not a number counts as none. */
  function CompareFrom(l: Version, r: Version, i: nat, limit: nat): int
    decreases limit - i
  {
    if i >= limit then 0
    else
      match (PartAt(l, i), PartAt(r, i))
      case (Num(a), Num(b)) => if b - a != 0 then b - a else CompareFrom(l, r, i + 1, limit)
      case _ => 0
  }

  function CompareVersionTitlesDesc(l: Version, r: Version): int { CompareFrom(l, r, 0, Longer(l, r)) }

  method CompareLoop(l: Version, r: Version) returns (order: int)
    ensures order == CompareVersionTitlesDesc(l, r)
  {
    var limit := Longer(l, r);
    for i := 0 to limit
      invariant CompareVersionTitlesDesc(l, r) == CompareFrom(l, r, i, limit)
    {
      var a, b := PartAt(l, i), PartAt(r, i);
      if a.NotANumber? || b.NotANumber? { return 0; }
      var difference := b.n - a.n;
      if difference != 0 { return difference; }
    }
    return 0;
  }

  predicate Numeric(v: Version) { forall p :: p in v ==> p.Num? }

  lemma {:induction false} LimitIsSlack(l: Version, r: Version, i: nat, limit: nat)
    requires limit >= Longer(l, r)
    ensures CompareFrom(l, r, i, limit) == CompareFrom(l, r, i, Longer(l, r))
    decreases limit - i
  {
    if i < limit {
      LimitIsSlack(l, r, i + 1, limit);
    }
  }

  /** A part that is no number breaks the order: 1.3 before 1.x, 1.x before 1.5, but not 1.3 before 1.5. */
  lemma {:induction false} OddPartsBreakTheOrder()
    ensures var three, odd, five := [Num(1), Num(3)], [Num(1), NotANumber], [Num(1), Num(5)];
      && CompareVersionTitlesDesc(three, odd) <= 0 && CompareVersionTitlesDesc(odd, five) <= 0
      && CompareVersionTitlesDesc(three, five) > 0
  {
    var three, odd, five := [Num(1), Num(3)], [Num(1), NotANumber], [Num(1), Num(5)];
    assert CompareFrom(three, odd, 1, 2) == 0 && CompareFrom(odd, five, 1, 2) == 0;
    assert CompareFrom(three, five, 1, 2) == 2;
  }

  // ----- exactly when the comparator is an order -----

  predicate InTurn(x: Version, y: Version, z: Version) {
    CompareVersionTitlesDesc(x, y) <= 0 && CompareVersionTitlesDesc(y, z) <= 0 ==> CompareVersionTitlesDesc(x, z) <= 0
  }

  /** The comparator orders these versions: antisymmetric, and "not later" is transitive. */
  ghost predicate Orders(vs: set<Version>) {
    && (forall x, y :: x in vs && y in vs && CompareVersionTitlesDesc(x, y) > 0 ==> CompareVersionTitlesDesc(y, x) <= 0)
    && (forall x, y, z :: x in vs && y in vs && z in vs ==> InTurn(x, y, z))
  }

  /** The first part of `v` that is no number. */
  predicate FirstOdd(v: Version, i: nat) {
    i < |v| && v[i] == NotANumber && forall k :: 0 <= k < i ==> v[k].Num?
  }

  predicate AgreeBefore(x: Version, y: Version, i: nat) {
    forall k: nat :: k < i ==> PartAt(x, k).Num? && PartAt(x, k) == PartAt(y, k)
  }

  /** `x` begins like the odd version `y`, up to its odd part. */
  predicate BeginLike(x: Version, y: Version, i: nat) { FirstOdd(y, i) && AgreeBefore(x, y, i) }

  predicate Tie(x: Version, y: Version) { CompareVersionTitlesDesc(x, y) == 0 }

  /** Versions that begin like an odd one, up to its odd part, tie. */
  ghost predicate OddPartsTie(vs: set<Version>) {
    forall x, y, z, i: nat :: x in vs && y in vs && z in vs && BeginLike(x, y, i) && BeginLike(z, y, i) ==> Tie(x, z)
  }

  /** Where two versions are told apart: all parts before are equal numbers. */
  lemma {:induction false} ComparePast(l: Version, r: Version, i: nat, j: nat, limit: nat)
    requires i <= j <= limit && AgreeBefore(l, r, j)
    ensures CompareFrom(l, r, i, limit) == CompareFrom(l, r, j, limit)
    decreases j - i
  {
    if i < j {
      ComparePast(l, r, i + 1, j, limit);
    }
  }

  /** A positive comparison is decided by two numbers. */
  lemma {:induction false} DecidedAt(l: Version, r: Version, i: nat, limit: nat) returns (k: nat)
    requires CompareFrom(l, r, i, limit) > 0 && AgreeBefore(l, r, i)
    ensures i <= k < limit && AgreeBefore(l, r, k) && PartAt(l, k).Num? && PartAt(r, k).Num?
    ensures PartAt(l, k).n < PartAt(r, k).n
    decreases limit - i
  {
    k := i;
    if PartAt(l, i) == PartAt(r, i) {
      k := DecidedAt(l, r, i + 1, limit);
    }
  }

  /** What is known of a comparison once the versions agree up to some part. */
  lemma {:induction false} ComparedAt(l: Version, r: Version, k: nat)
    requires AgreeBefore(l, r, k)
    ensures PartAt(l, k).Num? && PartAt(r, k).Num? && PartAt(l, k).n != PartAt(r, k).n
        ==> CompareVersionTitlesDesc(l, r) == PartAt(r, k).n - PartAt(l, k).n
    ensures PartAt(l, k).NotANumber? || PartAt(r, k).NotANumber? ==> CompareVersionTitlesDesc(l, r) == 0
  {
    var limit := Longer(l, r) + k + 1;
    LimitIsSlack(l, r, 0, limit);
    ComparePast(l, r, 0, k, limit);
  }

  /** Agreement with a version that has no odd part yet goes on, or stops at a part that decides. */
  lemma {:induction false} Diverge(x: Version, y: Version, k: nat) returns (j: nat)
    ensures j <= k && AgreeBefore(x, y, j) && (j < k ==> PartAt(x, j) != PartAt(y, j) || PartAt(x, j).NotANumber?)
  {
    j := 0;
    while j < k && PartAt(x, j) == PartAt(y, j) && PartAt(x, j).Num?
      invariant j <= k && AgreeBefore(x, y, j)
    {
      j := j + 1;
    }
  }

  lemma {:induction false} OddPlace(y: Version, x: Version, j: nat)
    requires AgreeBefore(x, y, j) && PartAt(y, j).NotANumber?
    ensures FirstOdd(y, j)
  {
    assert j < |y|;
    forall k | 0 <= k < j ensures y[k].Num? {
      assert PartAt(x, k) == PartAt(y, k) && PartAt(x, k).Num?;
    }
  }

  lemma {:induction false} OddTie(vs: set<Version>, x: Version, y: Version, z: Version, i: nat)
    requires OddPartsTie(vs) && x in vs && y in vs && z in vs && BeginLike(x, y, i) && BeginLike(z, y, i)
    ensures CompareVersionTitlesDesc(x, z) == 0
  {
    assert Tie(x, z);
  }

  lemma {:induction false} TiesAreOrdered(vs: set<Version>, x: Version, y: Version, z: Version)
    requires OddPartsTie(vs) && x in vs && y in vs && z in vs
    requires CompareVersionTitlesDesc(x, y) <= 0 && CompareVersionTitlesDesc(y, z) <= 0
    ensures CompareVersionTitlesDesc(x, z) <= 0
  {
    if CompareVersionTitlesDesc(x, z) > 0 {
      var k := DecidedAt(x, z, 0, Longer(x, z));
      var j := Diverge(x, y, k);
      assert AgreeBefore(x, y, j) && AgreeBefore(y, x, j) && AgreeBefore(z, y, j) && AgreeBefore(y, z, j);
      assert PartAt(x, j).Num? && PartAt(z, j).Num?;
      if PartAt(y, j).NotANumber? {
        OddPlace(y, x, j);
        OddTie(vs, x, y, z, j);
      } else {
        ComparedAt(x, y, j);
        ComparedAt(y, z, j);
      }
    }
  }

  /** The comparator orders a set of versions exactly when those that begin like an odd
      one, up to its odd part, tie with each other. */
  lemma {:induction false} OrdersExactly(vs: set<Version>)
    ensures Orders(vs) <==> OddPartsTie(vs)
  {
    hide CompareVersionTitlesDesc;
    if OddPartsTie(vs) {
      forall x, y | x in vs && y in vs && CompareVersionTitlesDesc(x, y) > 0
        ensures CompareVersionTitlesDesc(y, x) <= 0
      {
        NegativeIsPositive(x, y);
      }
      forall x, y, z | x in vs && y in vs && z in vs ensures InTurn(x, y, z) {
        if CompareVersionTitlesDesc(x, y) <= 0 && CompareVersionTitlesDesc(y, z) <= 0 {
          TiesAreOrdered(vs, x, y, z);
        }
      }
    }
    if Orders(vs) {
      forall x, y, z, i: nat | x in vs && y in vs && z in vs && BeginLike(x, y, i) && BeginLike(z, y, i)
        ensures Tie(x, z)
      {
        assert InTurn(x, y, z) && InTurn(z, y, x);
        assert AgreeBefore(y, x, i) && AgreeBefore(y, z, i);
        ComparedAt(x, y, i);
        ComparedAt(y, x, i);
        ComparedAt(y, z, i);
        ComparedAt(z, y, i);
        NegativeIsPositive(x, z);
      }
    }
  }

  lemma {:induction false} Opposite(x: Version, y: Version, i: nat, limit: nat)
    ensures CompareFrom(x, y, i, limit) == -CompareFrom(y, x, i, limit)
    decreases limit - i
  {
    if i < limit {
      Opposite(x, y, i + 1, limit);
    }
  }

  lemma {:induction false} NegativeIsPositive(x: Version, y: Version)
    ensures CompareVersionTitlesDesc(x, y) == -CompareVersionTitlesDesc(y, x)
  {
    Opposite(x, y, 0, Longer(x, y));
  }

  /** Numeric versions have no odd part. */
  lemma {:induction false} NumericTies(vs: set<Version>)
    requires forall v :: v in vs ==> Numeric(v)
    ensures OddPartsTie(vs)
  {
    forall y, i: nat | y in vs ensures !FirstOdd(y, i) {
      assert i < |y| ==> y[i] in y;
    }
  }

  /** Numeric versions are put in one consistent order, short ones filled up with zeros. */
  lemma {:induction false} NumericOrder(x: Version, y: Version, z: Version)
    requires Numeric(x) && Numeric(y) && Numeric(z)
    ensures CompareVersionTitlesDesc(x, y) > 0 ==> CompareVersionTitlesDesc(y, x) <= 0
    ensures CompareVersionTitlesDesc(x, y) <= 0 && CompareVersionTitlesDesc(y, z) <= 0
        ==> CompareVersionTitlesDesc(x, z) <= 0
  {
    var vs := {x, y, z};
    NumericTies(vs);
    OrdersExactly(vs);
    assert InTurn(x, y, z);
  }

  /** At the first part in which they differ, both are numbers and that of `x` is the greater. */
  predicate NewerAt(x: Version, y: Version, k: nat) {
    && AgreeBefore(x, y, k) && PartAt(x, k).Num? && PartAt(y, k).Num? && PartAt(x, k).n > PartAt(y, k).n
  }

  ghost predicate Newer(x: Version, y: Version) { exists k: nat :: NewerAt(x, y, k) }

  lemma {:induction false} NewerComesFirst(x: Version, y: Version)
    ensures Newer(x, y) <==> CompareVersionTitlesDesc(y, x) > 0
    ensures Newer(x, y) <==> CompareVersionTitlesDesc(x, y) < 0
  {
    NegativeIsPositive(x, y);
    if Newer(x, y) {
      var k: nat :| NewerAt(x, y, k);
      ComparedAt(x, y, k);
    }
    if CompareVersionTitlesDesc(y, x) > 0 {
      var k := DecidedAt(y, x, 0, Longer(y, x));
      assert NewerAt(x, y, k);
    }
  }
}
