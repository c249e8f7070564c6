/**
 What the proofs use of the exponential function, which is a parameter everywhere: it
 grows from exp(0) = 1 and turns sums into products. Instances of these laws are named,
 so that a proof uses them one at a time.
 */
module Exponentials {
  import opened RealVectors

  ghost predicate Grows(exp: real -> real)
  {
    exp(0.0) == 1.0 && forall x, y :: x <= y ==> exp(x) <= exp(y)
  }

  ghost predicate TurnsSumToProduct(exp: real -> real, x: real, y: real)
  {
    exp(x + y) == Mul(exp(x), exp(y))
  }

  ghost predicate IsPositiveAt(exp: real -> real, x: real)
  {
    exp(x) > 0.0
  }

  ghost predicate Exponential(exp: real -> real)
  {
    && Grows(exp)
    && (forall x :: IsPositiveAt(exp, x))
    && (forall x, y :: TurnsSumToProduct(exp, x, y))
  }

  lemma ProductOfPowers(exp: real -> real, x: real, y: real)
    requires Exponential(exp)
    ensures exp(x + y) == Mul(exp(x), exp(y))
  {
    assert TurnsSumToProduct(exp, x, y);
  }

  /** Opposite arguments give reciprocal values. */
  lemma Opposite(exp: real -> real, x: real)
    requires Exponential(exp)
    ensures Mul(exp(x), exp(-x)) == 1.0 && exp(x) > 0.0
  {
    assert TurnsSumToProduct(exp, x, -x) && IsPositiveAt(exp, x);
    assert x + -x == 0.0;
  }
}
