/** The promotion test and its two one-sided bounds. */
module WeightedTest {
  import opened RealVectors
  import opened Exponentials
  import opened Results
  import opened NullExpectation
  import opened Evidence

  /** A completed allocation: its weighted score, sum of squared coefficients, and strata. */
  datatype Allocation = Allocation(score: real, information: real, weights: seq<real>, masses: seq<real>) {

    predicate Valid()
    {
      && ValidInputs(weights, masses, 0.0)
      && -ABSOLUTE <= score <= Sum(masses) + ABSOLUTE
      && information >= 0.0
    }

    /** An allocation is refused for its strata, for a score outside of what its masses allow, and for negative information. */
    lemma AllocationsAreChecked()
      ensures !Valid() <==>
        || !ValidInputs(weights, masses, 0.0) || information < 0.0
        || 1000000000000.0 * score < -1.0 || 1000000000000.0 * (score - Sum(masses)) > 1.0
    {
      hide ValidInputs, Sum;
    }

    /** Observed score, seen from a direction, less the most the null at m can expect. */
    function Centered(direction: Direction, m: real): real
      requires WellFormed(weights, masses)
    {
      if direction == Greater then score - NullValue(weights, masses, m)
      else Sum(masses) - score - NullValue(weights, masses, 1.0 - m)
    }

    /** The same score centred at one vector of true stratum means. */
    function CenteredAt(direction: Direction, means: seq<real>): real
      requires |masses| == |means|
    {
      if direction == Greater then score - Dot(masses, means) else Dot(masses, means) - score
    }

    /** The code's "evidence(mean) >= threshold". */
    function Test(exp: real -> real, direction: Direction, error: real): real --> bool
      requires WellFormed(weights, masses) && 0.0 < error < 1.0
    {
      m requires 0.0 <= m <= 1.0 => Exceeds(exp, Centered(direction, m), information, error)
    }

    lemma CenteredAntitone(direction: Direction, low: real, high: real)
      requires Valid() && 0.0 <= low <= high <= 1.0
      ensures direction == Greater ==> Centered(direction, high) <= Centered(direction, low)
      ensures direction == Less ==> Centered(direction, low) <= Centered(direction, high)
    {
      hide NullValue;
      NullValueMonotone(weights, masses, low, high);
      NullValueMonotone(weights, masses, 1.0 - high, 1.0 - low);
    }

    lemma TestIsClosed(exp: real -> real, direction: Direction, error: real)
      requires Valid() && Grows(exp) && 0.0 < error < 1.0
      ensures Closed(direction, Test(exp, direction, error))
    {
      hide Exceeds;
      forall x, y | 0.0 <= x <= y <= 1.0
        ensures direction == Greater ==> Test(exp, direction, error)(y) ==> Test(exp, direction, error)(x)
        ensures direction == Less ==> Test(exp, direction, error)(x) ==> Test(exp, direction, error)(y)
      {
        CenteredAntitone(direction, x, y);
        var low, high := Centered(direction, if direction == Greater then y else x),
                         Centered(direction, if direction == Greater then x else y);
        if Exceeds(exp, low, information, error) {
          ExceedsMonotone(exp, low, high, information, error);
        }
      }
    }

    /** The most that both directions together can be off, halved: zero unless the weights add up to more than one. */
    function Overlap(): real
    {
      (Sum(masses) - Sum(masses) / Excess(weights)) / 2.0
    }

    /** The directions can only overlap if so small an excess of score were evidence enough. */
    ghost predicate IsSeparated(exp: real -> real, error: real)
      requires 0.0 < error < 1.0
    {
      !Exceeds(exp, Overlap(), information, error)
    }

    lemma SeparatedByWeights(exp: real -> real, error: real)
      requires Valid() && Grows(exp) && 0.0 < error < 1.0 && Sum(weights) <= 1.0
      ensures IsSeparated(exp, error)
    {
      hide Exceeds;
      if Exceeds(exp, Overlap(), information, error) {
        ExceedsNeedsExcess(exp, Overlap(), information, error);
      }
    }

    lemma BothAtMostOverlap(m: real)
      requires Valid() && 0.0 <= m <= 1.0
      ensures Centered(Greater, m) <= Overlap() || Centered(Less, m) <= Overlap()
    {
      hide NullValue, Sum, Excess;
      ComplementaryNulls(weights, masses, m);
      assert Excess(weights) >= 1.0 by { ExcessAtLeastOne(weights); }
      var nulls := NullValue(weights, masses, m) + NullValue(weights, masses, 1.0 - m);
      assert Sum(masses) / Excess(weights) * Excess(weights) == Sum(masses);
      ComparePrice(nulls, Sum(masses) / Excess(weights), Excess(weights));
    }

    /** No mean is rejected in both directions at once. */
    lemma TestsAreDisjoint(exp: real -> real, error: real, m: real)
      requires Valid() && Grows(exp) && 0.0 < error < 1.0 && 0.0 <= m <= 1.0 && IsSeparated(exp, error)
      ensures !(Test(exp, Greater, error)(m) && Test(exp, Less, error)(m))
    {
      hide Exceeds, NullValue, Overlap;
      BothAtMostOverlap(m);
      if Test(exp, Greater, error)(m) && Test(exp, Less, error)(m) {
        var direction := if Centered(Greater, m) <= Overlap() then Greater else Less;
        ExceedsMonotone(exp, Centered(direction, m), Overlap(), information, error);
      }
    }

    /** The one-sided null at m: the weighted total of the true means is at most m, or lacks at most 1 - m. */
    ghost predicate Null(direction: Direction, m: real, means: seq<real>)
      requires |weights| == |means|
    {
      InUnitBox(means) && if direction == Greater then Dot(weights, means) <= m else Sum(weights) - Dot(weights, means) <= 1.0 - m
    }

    /** Centring at the null's worst case never overstates the evidence. */
    lemma CenteredIsDominated(direction: Direction, m: real, means: seq<real>)
      requires Valid() && 0.0 <= m <= 1.0 && |means| == |weights| && Null(direction, m, means)
      ensures Centered(direction, m) <= CenteredAt(direction, means)
    {
      hide NullValue, Dot, Sum;
      if direction == Greater {
        NullValueIsMaximum(weights, masses, m);
        assert Feasible(weights, m, means);
      } else {
        var complement := Complement(means);
        DotComplement(weights, means);
        DotComplement(masses, means);
        NullValueIsMaximum(weights, masses, 1.0 - m);
        assert Feasible(weights, 1.0 - m, complement);
      }
    }

    /** Nor does it understate it more than it must: some means inside the null are centred just there. */
    lemma CenteredIsAttained(direction: Direction, m: real) returns (means: seq<real>)
      requires Valid() && 0.0 <= m <= 1.0
      ensures |means| == |weights| && Null(direction, m, means) && CenteredAt(direction, means) == Centered(direction, m)
    {
      hide NullValue, Dot, Sum;
      if direction == Greater {
        NullValueIsMaximum(weights, masses, m);
        means :| Feasible(weights, m, means) && Dot(masses, means) == NullValue(weights, masses, m);
      } else {
        NullValueIsMaximum(weights, masses, 1.0 - m);
        var missing :| Feasible(weights, 1.0 - m, missing) && Dot(masses, missing) == NullValue(weights, masses, 1.0 - m);
        means := Complement(missing);
        DotComplement(weights, missing);
        DotComplement(masses, missing);
      }
    }

    /**
     Whenever a returned bound excludes the true stratum means, the mixture centred
     at those true means has itself reached 1/error. So a bound errs no more often
     than that mixture crosses its threshold.
     */
    lemma ExclusionNeedsTrueEvidence(exp: real -> real, direction: Direction, error: real, bound: real, means: seq<real>)
      requires Valid() && Grows(exp) && 0.0 < error < 1.0
      requires IsBound(direction, Test(exp, direction, error), bound)
      requires bound != Endpoint(direction)
      requires |means| == |weights| && Null(direction, bound, means)
      ensures Exceeds(exp, CenteredAt(direction, means), information, error)
    {
      hide Exceeds, IsBound;
      MovedBoundIsRejected(direction, Test(exp, direction, error), bound);
      CenteredIsDominated(direction, bound, means);
      ExceedsMonotone(exp, Centered(direction, bound), CenteredAt(direction, means), information, error);
    }
  }

  lemma ExcessAtLeastOne(weights: seq<real>)
    ensures Excess(weights) >= 1.0
  {
  }

  function Complement(means: seq<real>): (r: seq<real>)
    ensures |r| == |means| && forall i :: 0 <= i < |r| ==> r[i] == 1.0 - means[i]
  {
    seq(|means|, i requires 0 <= i < |means| => 1.0 - means[i])
  }

  lemma {:induction false} DotComplement(a: seq<real>, means: seq<real>)
    requires |a| == |means|
    ensures Dot(a, Complement(means)) == Sum(a) - Dot(a, means)
  {
    if a != [] {
      var k := |a| - 1;
      assert Complement(means)[..k] == Complement(means[..k]);
      DotComplement(a[..k], means[..k]);
      assert a[k] * (1.0 - means[k]) == a[k] - a[k] * means[k];
    }
  }

  /**
   The code's bounds. Without any squared coefficient they are the endpoints and
   nothing is validated; otherwise the allocation must be valid.
   */
  method WeightedStratumConfidenceSequence(exp: real -> real, a: Allocation, error: real)
    returns (r: Result<(real, real)>)
    requires Grows(exp)
    ensures r.Success? <==> 0.0 < error < 1.0 && (a.information == 0.0 || a.Valid())
    ensures r.Success? ==> 0.0 <= r.value.0 <= 1.0 && 0.0 <= r.value.1 <= 1.0
    ensures r.Success? && (a.information == 0.0 || a.IsSeparated(exp, error)) ==> r.value.0 < r.value.1
    ensures r.Success? && a.information == 0.0 ==> r.value == (0.0, 1.0)
    ensures r.Success? && a.information != 0.0 ==>
      && IsBound(Greater, a.Test(exp, Greater, error), r.value.0)
      && IsBound(Less, a.Test(exp, Less, error), r.value.1)
  {
    if !(0.0 < error < 1.0) {
      return Failure("weighted stratum error probability must be in (0, 1)");
    }
    if a.information == 0.0 {
      return Success((0.0, 1.0));
    }
    if !a.Valid() {
      return Failure("invalid weighted paired evidence inputs");
    }
    a.TestIsClosed(exp, Greater, error);
    a.TestIsClosed(exp, Less, error);
    var lower := Bound(Greater, a.Test(exp, Greater, error));
    var upper := Bound(Less, a.Test(exp, Less, error));
    if a.IsSeparated(exp, error) {
      forall m | 0.0 <= m <= 1.0
        ensures !(a.Test(exp, Greater, error)(m) && a.Test(exp, Less, error)(m))
      {
        a.TestsAreDisjoint(exp, error, m);
      }
      BoundsDoNotCross(a.Test(exp, Greater, error), a.Test(exp, Less, error), lower, upper);
    }
    r := Success((lower, upper));
  }
}
