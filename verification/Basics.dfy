/**
 What several components use: a value that may be missing, and the smaller and larger of two numbers.
 */
module Basics {
  datatype Option<+T> = None | Some(value: T)

  function Min(a: int, b: int): int { if a <= b then a else b }

  function Max(a: int, b: int): int { if a >= b then a else b }

  // ----- division -----

  lemma {:induction false} NextMultiple(a: nat, b: nat, c: nat)
    ensures a < b ==> a * c + c <= b * c
  {
    if a < b {
      var k := b - a;
      assert b * c == a * c + k * c;
      assert k * c >= c;
    }
  }

  /** Division with remainder has one answer. */
  lemma {:induction false} Quotient(n: nat, d: nat, q: nat, r: nat)
    requires n == q * d + r && r < d
    ensures n / d == q && n % d == r
  {
    var p := n / d;
    assert n == p * d + n % d;
    NextMultiple(p, q, d);
    NextMultiple(q, p, d);
  }
}
