/** Hoeffding mixtures, and the bisection that inverts them. */
module Evidence {
  // The exponential is a parameter: what is proved needs only that it grows and that
  // exp(0) = 1, plus exp(x + y) = exp(x) * exp(y) where the code shifts by the largest
  // exponent.

  import opened RealVectors
  import opened Exponentials

  datatype Direction = Greater | Less

  const LAMBDAS: seq<real> := [0.0625, 0.125, 0.25, 0.5, 1.0, 2.0, 4.0, 8.0]

  function Exponent(rate: real, centered: real, information: real): real
  {
    rate * centered - rate * rate * information / 8.0
  }

  /** Sum of exp(rate * centered - rate^2 * information / 8) over LAMBDAS[..k]. */
  function MixtureSum(exp: real -> real, centered: real, information: real, k: nat): real
    requires k <= |LAMBDAS|
  {
    if k == 0 then 0.0
    else MixtureSum(exp, centered, information, k - 1) + exp(Exponent(LAMBDAS[k-1], centered, information))
  }

  /** The mean of the exponentials reaches 1/error: the log-e-value reaches its threshold. */
  predicate Exceeds(exp: real -> real, centered: real, information: real, error: real)
    requires 0.0 < error < 1.0
  {
    MixtureSum(exp, centered, information, |LAMBDAS|) / |LAMBDAS| as real >= 1.0 / error
  }

  lemma ExponentMonotone(rate: real, low: real, high: real, information: real)
    requires rate >= 0.0 && low <= high
    ensures Exponent(rate, low, information) <= Exponent(rate, high, information)
  {
    assert rate * low <= rate * high by { assert rate * (high - low) >= 0.0; }
  }

  lemma {:induction false} MixtureMonotone(exp: real -> real, low: real, high: real, information: real, k: nat)
    requires Grows(exp) && low <= high && k <= |LAMBDAS|
    ensures MixtureSum(exp, low, information, k) <= MixtureSum(exp, high, information, k)
  {
    hide Exponent;
    if k > 0 {
      MixtureMonotone(exp, low, high, information, k - 1);
      ExponentMonotone(LAMBDAS[k-1], low, high, information);
    }
  }

  lemma {:induction false} MixtureAtMostCount(exp: real -> real, centered: real, information: real, k: nat)
    requires Grows(exp) && centered <= 0.0 && information >= 0.0 && k <= |LAMBDAS|
    ensures MixtureSum(exp, centered, information, k) <= k as real
  {
    hide Exponent;
    if k > 0 {
      MixtureAtMostCount(exp, centered, information, k - 1);
      ExponentMonotone(LAMBDAS[k-1], centered, 0.0, information);
      NoEvidenceAtZero(LAMBDAS[k-1], information);
    }
  }

  lemma NoEvidenceAtZero(rate: real, information: real)
    requires information >= 0.0
    ensures Exponent(rate, 0.0, information) <= 0.0
  {
    assert rate * rate >= 0.0;
    assert rate * rate * information >= 0.0;
  }

  /** More centred score is more evidence. */
  lemma ExceedsMonotone(exp: real -> real, low: real, high: real, information: real, error: real)
    requires Grows(exp) && low <= high && 0.0 < error < 1.0
    requires Exceeds(exp, low, information, error)
    ensures Exceeds(exp, high, information, error)
  {
    MixtureMonotone(exp, low, high, information, |LAMBDAS|);
  }

  /** Nothing is rejected unless the observed score is above what the null expects. */
  lemma ExceedsNeedsExcess(exp: real -> real, centered: real, information: real, error: real)
    requires Grows(exp) && information >= 0.0 && 0.0 < error < 1.0
    requires Exceeds(exp, centered, information, error)
    ensures centered > 0.0
  {
    if centered <= 0.0 {
      MixtureAtMostCount(exp, centered, information, |LAMBDAS|);
      Reciprocal(error);
    }
  }

  lemma Reciprocal(error: real)
    requires 0.0 < error < 1.0
    ensures 1.0 / error > 1.0
  {
    assert (1.0 / error - 1.0) * error == 1.0 - error;
    PositiveFactor(1.0 / error - 1.0, error);
  }

  lemma PositiveFactor(x: real, y: real)
    requires y > 0.0 && x * y > 0.0
    ensures x > 0.0
  {
  }

  // What the exponents are: every rate is below one peak, and the grid comes close to it.

  /** For a centre c and information V no rate reaches more than 2c^2/V, and the rate 4c/V does. */
  lemma ExponentPeak(rate: real, centered: real, information: real)
    requires information > 0.0
    ensures Exponent(rate, centered, information) <= 2.0 * centered * centered / information
    ensures Exponent(4.0 * centered / information, centered, information) == 2.0 * centered * centered / information
  {
    var best := 4.0 * centered / information;
    assert best * information == 4.0 * centered;
    BelowPeak(rate, centered, information, best);
    BelowPeak(best, centered, information, best);
  }

  lemma BelowPeak(rate: real, centered: real, information: real, best: real)
    requires information > 0.0 && best * information == 4.0 * centered
    ensures Exponent(rate, centered, information)
      == 2.0 * centered * centered / information - information / 8.0 * ((rate - best) * (rate - best))
    ensures information / 8.0 * ((rate - best) * (rate - best)) >= 0.0
  {
    var peak := 2.0 * centered * centered / information;
    assert peak == centered * best / 2.0 by {
      assert peak * information == 2.0 * centered * centered;
      assert centered * best / 2.0 * information == centered * (best * information) / 2.0;
    }
    assert (rate - best) * (rate - best) == rate * rate - 2.0 * (rate * best) + best * best;
    assert information * (rate * best) == rate * (best * information);
    assert information * (best * best) == best * (best * information);
    assert (rate - best) * (rate - best) >= 0.0;
  }

  /** Between the grid's ends some rate is within a third of the best one. */
  lemma GridIsDense(best: real) returns (i: nat)
    requires 1.0 / 16.0 <= best <= 12.0
    ensures i < |LAMBDAS| && 2.0 * best <= 3.0 * LAMBDAS[i] <= 4.0 * best
  {
    i := if best <= 3.0 / 32.0 then 0 else if best <= 3.0 / 16.0 then 1 else if best <= 3.0 / 8.0 then 2
         else if best <= 3.0 / 4.0 then 3 else if best <= 3.0 / 2.0 then 4 else if best <= 3.0 then 5
         else if best <= 6.0 then 6 else 7;
  }

  /** So the grid loses at most a ninth of the peak. */
  lemma GridLosesLittle(centered: real, information: real) returns (i: nat)
    requires information > 0.0 && information <= 64.0 * centered && centered <= 3.0 * information
    ensures i < |LAMBDAS| && Exponent(LAMBDAS[i], centered, information) >= 16.0 * centered * centered / (9.0 * information)
  {
    var best := 4.0 * centered / information;
    assert best * information == 4.0 * centered;
    hide Exponent;
    Quotient(1.0 / 16.0, best, information);
    assert best * information <= 12.0 * information;
    Quotient(best, 12.0, information);
    i := GridIsDense(best);
    var off, rate := LAMBDAS[i] - best, LAMBDAS[i];
    BelowPeak(rate, centered, information, best);
    WithinThird(off, best);
    EightNinths(centered, information, best, off);
  }

  lemma Quotient(x: real, y: real, z: real)
    requires z > 0.0
    ensures x * z <= y * z ==> x <= y
  {
    if x > y { assert (x - y) * z > 0.0; }
  }

  lemma WithinThird(off: real, best: real)
    requires best >= 0.0 && -best <= 3.0 * off <= best
    ensures off * off <= best * best / 9.0
  {
    assert (best / 3.0 - off) * (best / 3.0 + off) >= 0.0;
  }

  lemma EightNinths(centered: real, information: real, best: real, off: real)
    requires information > 0.0 && best * information == 4.0 * centered && off * off <= best * best / 9.0
    ensures 2.0 * centered * centered / information - information / 8.0 * (off * off) >= 16.0 * centered * centered / (9.0 * information)
  {
    var q := centered * centered / information;
    assert q * information == centered * centered;
    assert information / 8.0 * (best * best / 9.0 - off * off) >= 0.0;
    assert information * (best * best) == best * (best * information) == 4.0 * (best * centered);
    assert best * centered * information == 4.0 * (q * information);
    SameQuotient(best * centered, 4.0 * q, information);
    assert 16.0 * centered * centered / (9.0 * information) == 16.0 * q / 9.0 by {
      var r := 16.0 * centered * centered / (9.0 * information);
      assert r * (9.0 * information) == 16.0 * centered * centered;
      assert (16.0 * q / 9.0) * (9.0 * information) == 16.0 * (q * information);
      SameQuotient(r, 16.0 * q / 9.0, 9.0 * information);
    }
    assert 2.0 * centered * centered / information == 2.0 * q by {
      var r := 2.0 * centered * centered / information;
      assert r * information == 2.0 * centered * centered;
      SameQuotient(r, 2.0 * q, information);
    }
  }

  lemma SameQuotient(x: real, y: real, z: real)
    requires z > 0.0 && x * z == y * z
    ensures x == y
  {
    assert (x - y) * z == 0.0;
    NonzeroFactor(z, x - y);
  }

  lemma {:induction false} MixtureHasTerm(exp: real -> real, centered: real, information: real, k: nat, i: nat)
    requires Exponential(exp) && k <= |LAMBDAS|
    ensures MixtureSum(exp, centered, information, k) >= 0.0
    ensures i < k ==> MixtureSum(exp, centered, information, k) >= exp(Exponent(LAMBDAS[i], centered, information))
  {
    hide Exponent;
    if k > 0 {
      MixtureHasTerm(exp, centered, information, k - 1, i);
      assert IsPositiveAt(exp, Exponent(LAMBDAS[k-1], centered, information));
    }
  }

  /** The converse of soundness: so much of the peak is evidence enough. */
  lemma PeakSuffices(exp: real -> real, centered: real, information: real, error: real)
    requires Exponential(exp) && 0.0 < error < 1.0
    requires information > 0.0 && information <= 64.0 * centered && centered <= 3.0 * information
    requires exp(16.0 * centered * centered / (9.0 * information)) >= 8.0 / error
    ensures Exceeds(exp, centered, information, error)
  {
    var i := GridLosesLittle(centered, information);
    MixtureHasTerm(exp, centered, information, |LAMBDAS|, i);
    hide MixtureSum, Exponent;
    var sum := MixtureSum(exp, centered, information, |LAMBDAS|);
    assert sum >= 8.0 / error;
    assert 8.0 / error == 8.0 * (1.0 / error);
  }

  // The shifted sum of the code.

  function ShiftedSum(exp: real -> real, centered: real, information: real, shift: real, k: nat): real
    requires k <= |LAMBDAS|
  {
    if k == 0 then 0.0
    else ShiftedSum(exp, centered, information, shift, k - 1) + exp(Exponent(LAMBDAS[k-1], centered, information) - shift)
  }

  /** Pulling the largest exponent out of the sum, as log-sum-exp does, changes nothing. */
  lemma {:induction false} ShiftIsExact(exp: real -> real, centered: real, information: real, shift: real, k: nat)
    requires forall x, y :: TurnsSumToProduct(exp, x, y)
    requires k <= |LAMBDAS|
    ensures exp(shift) * ShiftedSum(exp, centered, information, shift, k) == MixtureSum(exp, centered, information, k)
  {
    hide Exponent;
    if k > 0 {
      ShiftIsExact(exp, centered, information, shift, k - 1);
      var exponent := Exponent(LAMBDAS[k-1], centered, information);
      assert TurnsSumToProduct(exp, shift, exponent - shift);
      assert shift + (exponent - shift) == exponent;
      Distribute(exp(shift), ShiftedSum(exp, centered, information, shift, k - 1), exp(exponent - shift));
    }
  }

  lemma Distribute(x: real, y: real, z: real)
    ensures x * (y + z) == x * y + x * z
  {
  }

  // Inverting a one-sided test by bisection.

  const STEPS: nat := 52

  function Endpoint(direction: Direction): real
  {
    if direction == Greater then 0.0 else 1.0
  }

  /** A test that, with a mean, also rejects every mean further from the alternative. */
  ghost predicate Closed(direction: Direction, rejects: real --> bool)
  {
    && (forall x :: 0.0 <= x <= 1.0 ==> rejects.requires(x))
    && (forall x, y :: 0.0 <= x <= y <= 1.0 ==>
          if direction == Greater then rejects(y) ==> rejects(x) else rejects(x) ==> rejects(y))
  }

  /** The means a returned bound declares rejected. */
  predicate Beyond(direction: Direction, bound: real, x: real)
  {
    if direction == Greater then 0.0 <= x <= bound else bound <= x <= 1.0
  }

  /**
   What a returned bound means: it only moves on evidence, everything beyond it is
   rejected, and a mean 2^-52 away on the inner side is not (unless that is the far endpoint).
   */
  ghost predicate IsBound(direction: Direction, rejects: real --> bool, bound: real)
    requires forall x :: 0.0 <= x <= 1.0 ==> rejects.requires(x)
  {
    var inner := if direction == Greater then bound + Halving(52) else bound - Halving(52);
    && 0.0 <= bound <= 1.0
    && (rejects(Endpoint(direction)) ==>
          && (forall x :: Beyond(direction, bound, x) ==> rejects(x))
          && 0.0 <= inner <= 1.0
          && (inner == 1.0 - Endpoint(direction) || !rejects(inner)))
    && (!rejects(Endpoint(direction)) ==> bound == Endpoint(direction))
  }

  method Bound(direction: Direction, rejects: real --> bool) returns (bound: real)
    requires Closed(direction, rejects)
    ensures IsBound(direction, rejects, bound)
  {
    if !rejects(Endpoint(direction)) {
      return Endpoint(direction);
    }
    var low, high := 0.0, 1.0;
    for k := 0 to STEPS
      invariant 0.0 <= low < high <= 1.0 && high - low == Halving(k)
      invariant direction == Greater ==> rejects(low) && (high == 1.0 || !rejects(high))
      invariant direction == Less ==> rejects(high) && (low == 0.0 || !rejects(low))
    {
      var middle := (low + high) / 2.0;
      if rejects(middle) == (direction == Greater) {
        low := middle;
      } else {
        high := middle;
      }
    }
    bound := if direction == Greater then low else high;
  }

  lemma MovedBoundIsRejected(direction: Direction, rejects: real --> bool, bound: real)
    requires forall x :: 0.0 <= x <= 1.0 ==> rejects.requires(x)
    requires IsBound(direction, rejects, bound) && bound != Endpoint(direction)
    ensures 0.0 <= bound <= 1.0 && rejects(bound)
  {
    assert Beyond(direction, bound, bound);
  }

  /** Two bounds of tests that never both reject a mean do not cross. */
  lemma BoundsDoNotCross(greater: real --> bool, less: real --> bool, lower: real, upper: real)
    requires Closed(Greater, greater) && Closed(Less, less)
    requires IsBound(Greater, greater, lower) && IsBound(Less, less, upper)
    requires forall x :: 0.0 <= x <= 1.0 ==> !(greater(x) && less(x))
    ensures lower < upper
  {
    HalvingBounds(STEPS);
    if upper <= lower {
      assert Beyond(Greater, lower, lower) && Beyond(Less, upper, upper);
      assert Beyond(Greater, lower, upper);
    }
  }
}
