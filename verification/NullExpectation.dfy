/** The most that a composite null can expect. */
module NullExpectation {
  // Unknown stratum means lie in [0,1] and their weighted average is at most the null
  // mean. The largest expectation that the observed coefficient masses can then have is a
  // bounded linear program, which the code solves greedily.

  import opened RealVectors
  import opened Results

  /** One stratum vector for each mass, positive weights and nonnegative masses. */
  predicate WellFormed(weights: seq<real>, masses: seq<real>)
  {
    && |weights| == |masses|
    && (forall i :: 0 <= i < |weights| ==> weights[i] > 0.0)
    && (forall i :: 0 <= i < |masses| ==> masses[i] >= 0.0)
  }

  predicate ValidInputs(weights: seq<real>, masses: seq<real>, nullMean: real)
  {
    && WellFormed(weights, masses)
    && weights != []
    && 0.0 <= nullMean <= 1.0
    && NearOne(Sum(weights))
  }

  /** The code's tolerance: a relative one of 1e-9, which always exceeds its absolute one. */
  predicate NearOne(total: real)
  {
    var bound := Max(Mul(RELATIVE, Max(total, 1.0)), ABSOLUTE);
    -bound <= total - 1.0 <= bound
  }

  const RELATIVE: real := 0.000000001
  const ABSOLUTE: real := 0.000000000001

  /** The tolerance is one part in 1e9: of the total itself when that exceeds one. */
  lemma NearOneMeans(total: real)
    requires total > 0.0
    ensures NearOne(total) <==> -1.0 <= 1000000000.0 * (total - 1.0) <= (if total > 1.0 then total else 1.0)
  {
  }

  /** Inputs are refused for these reasons only. */
  lemma InputsAreChecked(weights: seq<real>, masses: seq<real>, nullMean: real)
    ensures !ValidInputs(weights, masses, nullMean) <==>
      || |weights| != |masses| || weights == [] || nullMean < 0.0 || nullMean > 1.0
      || (exists i :: 0 <= i < |weights| && weights[i] <= 0.0) || (exists i :: 0 <= i < |masses| && masses[i] < 0.0)
      || !NearOne(Sum(weights))
  {
    hide Sum, NearOne;
  }

  ghost predicate InUnitBox(means: seq<real>)
  {
    forall i :: 0 <= i < |means| ==> 0.0 <= means[i] <= 1.0
  }

  /** The stratum means that the null "weighted average at most m" allows. */
  ghost predicate Feasible(weights: seq<real>, m: real, means: seq<real>)
  {
    |means| == |weights| && InUnitBox(means) && Dot(weights, means) <= m
  }

  /** v is the value of the linear program: attained, and never exceeded. */
  ghost predicate IsMaximum(weights: seq<real>, masses: seq<real>, m: real, v: real)
    requires |weights| == |masses|
  {
    && (exists means :: Feasible(weights, m, means) && Dot(masses, means) == v)
    && (forall means :: Feasible(weights, m, means) ==> Dot(masses, means) <= v)
  }

  /**
   Complementary slackness at price theta: strata worth more than the price are
   full, strata worth less are empty, and the budget is spent unless it is free.
   */
  ghost predicate Certificate(weights: seq<real>, masses: seq<real>, m: real, means: seq<real>, theta: real)
    requires |weights| == |masses|
  {
    && Feasible(weights, m, means)
    && theta >= 0.0
    && (theta == 0.0 || Dot(weights, means) == m)
    && (forall i :: 0 <= i < |weights| && masses[i] > Mul(theta, weights[i]) ==> means[i] == 1.0)
    && (forall i :: 0 <= i < |weights| && masses[i] < Mul(theta, weights[i]) ==> means[i] == 0.0)
  }

  lemma {:induction false} TradeAtPrice(weights: seq<real>, masses: seq<real>, means: seq<real>, other: seq<real>, theta: real)
    requires |weights| == |masses| == |means| == |other|
    requires forall i :: 0 <= i < |weights| ==> (masses[i] - theta * weights[i]) * (other[i] - means[i]) <= 0.0
    ensures Dot(masses, other) - Dot(masses, means) <= theta * (Dot(weights, other) - Dot(weights, means))
  {
    if weights != [] {
      var k := |weights| - 1;
      TradeAtPrice(weights[..k], masses[..k], means[..k], other[..k], theta);
      assert masses[k] * other[k] - masses[k] * means[k] <= theta * (weights[k] * other[k] - weights[k] * means[k]) by {
        assert (masses[k] - theta * weights[k]) * (other[k] - means[k]) <= 0.0;
      }
    }
  }

  lemma Opposed(x: real, y: real)
    requires x > 0.0 ==> y <= 0.0
    requires x < 0.0 ==> y >= 0.0
    ensures x * y <= 0.0
  {
  }

  lemma NoFeasiblePointBeats(weights: seq<real>, masses: seq<real>, m: real, means: seq<real>, theta: real, other: seq<real>)
    requires |weights| == |masses|
    requires Certificate(weights, masses, m, means, theta) && Feasible(weights, m, other)
    ensures Dot(masses, other) <= Dot(masses, means)
  {
    hide Dot;
    forall i | 0 <= i < |weights|
      ensures (masses[i] - theta * weights[i]) * (other[i] - means[i]) <= 0.0
    {
      assert 0.0 <= other[i] <= 1.0;
      var surplus := masses[i] - theta * weights[i];
      assert surplus > 0.0 ==> means[i] == 1.0;
      assert surplus < 0.0 ==> means[i] == 0.0;
      Opposed(surplus, other[i] - means[i]);
    }
    TradeAtPrice(weights, masses, means, other, theta);
    var extra := Dot(weights, other) - Dot(weights, means);
    assert theta > 0.0 ==> extra <= 0.0;
    Opposed(theta, extra);
  }

  /** Any point with a certificate is an optimum of the linear program. */
  lemma CertificateIsMaximum(weights: seq<real>, masses: seq<real>, m: real, means: seq<real>, theta: real)
    requires |weights| == |masses|
    requires Certificate(weights, masses, m, means, theta)
    ensures IsMaximum(weights, masses, m, Dot(masses, means))
  {
    forall other | Feasible(weights, m, other)
      ensures Dot(masses, other) <= Dot(masses, means)
    {
      NoFeasiblePointBeats(weights, masses, m, means, theta, other);
    }
  }

  // The order in which the knapsack is filled.

  function Ratios(weights: seq<real>, masses: seq<real>): (ratios: seq<real>)
    requires WellFormed(weights, masses)
    ensures |ratios| == |weights|
  {
    seq(|weights|, i requires 0 <= i < |weights| => masses[i] / weights[i])
  }

  ghost predicate IsIndexOrder(order: seq<nat>, n: nat)
  {
    && (forall k :: 0 <= k < |order| ==> order[k] < n)
    && (forall j, k :: 0 <= j < k < |order| ==> order[j] != order[k])
    && (forall i :: 0 <= i < n ==> i in order)
  }

  ghost predicate Descending(ratios: seq<real>, order: seq<nat>)
    requires forall k :: 0 <= k < |order| ==> order[k] < |ratios|
  {
    forall j, k :: 0 <= j < k < |order| ==> ratios[order[j]] >= ratios[order[k]]
  }

  function Position(ratios: seq<real>, order: seq<nat>, i: nat): (k: nat)
    requires i < |ratios|
    requires forall k :: 0 <= k < |order| ==> order[k] < |ratios|
    requires Descending(ratios, order)
    ensures k <= |order|
    ensures forall j :: 0 <= j < k ==> ratios[order[j]] >= ratios[i]
    ensures forall j :: k <= j < |order| ==> ratios[order[j]] < ratios[i]
  {
    if order == [] || ratios[order[|order|-1]] >= ratios[i] then |order|
    else Position(ratios, order[..|order|-1], i)
  }

  /** Puts index i behind every index of at least its ratio, as a stable sort does. */
  function InsertByRatio(ratios: seq<real>, order: seq<nat>, i: nat): (r: seq<nat>)
    requires i < |ratios|
    requires IsIndexOrder(order, i) && Descending(ratios, order)
    ensures IsIndexOrder(r, i + 1) && Descending(ratios, r)
  {
    var k := Position(ratios, order, i);
    var r := order[..k] + [i] + order[k..];
    assert forall j :: 0 <= j < i + 1 ==> j in r by {
      forall j | 0 <= j < i ensures j in r {
        assert j in order;
        var p :| 0 <= p < |order| && order[p] == j;
        assert r[if p < k then p else p + 1] == j;
      }
      assert r[k] == i;
    }
    r
  }

  function RatioOrder(ratios: seq<real>, n: nat): (order: seq<nat>)
    requires n <= |ratios|
    ensures IsIndexOrder(order, n) && Descending(ratios, order)
  {
    if n == 0 then [] else InsertByRatio(ratios, RatioOrder(ratios, n - 1), n - 1)
  }

  // The greedy fill.

  function Min(x: real, y: real): real { if y < x then y else x }

  function Max(x: real, y: real): real { if y > x then y else x }

  /** What a purchased amount of a stratum's weight is worth. */
  function Earned(weight: real, mass: real, amount: real): real
    requires weight > 0.0
  {
    amount * mass / weight
  }

  /** What filling the strata order[k..], in that order, earns from a remaining budget. */
  function Fill(weights: seq<real>, masses: seq<real>, order: seq<nat>, k: nat, remaining: real): real
    requires WellFormed(weights, masses) && k <= |order|
    requires forall k :: 0 <= k < |order| ==> order[k] < |weights|
    decreases |order| - k
  {
    if k == |order| then 0.0
    else
      var i := order[k];
      var amount := Min(weights[i], remaining);
      Earned(weights[i], masses[i], amount) + Fill(weights, masses, order, k + 1, Max(0.0, remaining - amount))
  }

  /** What the greedy fill has bought after visiting order[..k]. */
  ghost predicate Filled(weights: seq<real>, ratios: seq<real>, m: real, order: seq<nat>, k: nat,
                         remaining: real, means: seq<real>, theta: real)
    requires |ratios| == |weights| && IsIndexOrder(order, |weights|) && k <= |order|
  {
    && |means| == |weights| && InUnitBox(means) && theta >= 0.0
    && remaining >= 0.0 && Dot(weights, means) == m - remaining
    && (forall j :: k <= j < |order| ==> means[order[j]] == 0.0)
    && (remaining > 0.0 ==> forall j :: 0 <= j < k ==> means[order[j]] == 1.0)
    && (remaining == 0.0 ==>
          && (forall j :: 0 <= j < k && ratios[order[j]] > theta ==> means[order[j]] == 1.0)
          && (forall j :: 0 <= j < k && ratios[order[j]] < theta ==> means[order[j]] == 0.0)
          && (forall j :: k <= j < |order| ==> ratios[order[j]] <= theta))
  }

  /** The fraction of a stratum that a remaining budget buys. */
  lemma Share(weight: real, mass: real, remaining: real)
    requires weight > 0.0 && remaining >= 0.0
    ensures var amount := Min(weight, remaining); var share := amount / weight;
      && share * weight == amount && 0.0 <= share <= 1.0
      && Earned(weight, mass, amount) == mass * share
      && (amount == weight ==> share == 1.0) && (amount == 0.0 ==> share == 0.0)
  {
    var amount := Min(weight, remaining);
    var share := amount / weight;
    ComparePrice(share, 1.0, weight);
  }

  /** One step of the loop: the stratum order[k] takes what it can. */
  lemma FillStep(weights: seq<real>, ratios: seq<real>, m: real, order: seq<nat>, k: nat,
                 remaining: real, means: seq<real>, theta: real, share: real)
    returns (theta': real)
    requires |ratios| == |weights| && IsIndexOrder(order, |weights|) && k < |order|
    requires Descending(ratios, order) && ratios[order[k]] >= 0.0
    requires Filled(weights, ratios, m, order, k, remaining, means, theta)
    requires 0.0 <= share <= 1.0 && weights[order[k]] > 0.0
    requires weights[order[k]] * share == Min(weights[order[k]], remaining)
    requires remaining > weights[order[k]] ==> share == 1.0
    requires remaining == 0.0 ==> share == 0.0
    ensures var rest := Max(0.0, remaining - Min(weights[order[k]], remaining));
      Filled(weights, ratios, m, order, k + 1, rest, means[order[k] := share], theta')
  {
    var i := order[k];
    theta' := if remaining == 0.0 then theta else ratios[i];
    DotUpdate(weights, means, i, share);
    assert forall j :: 0 <= j < |order| && j != k ==> means[i := share][order[j]] == means[order[j]];
    if remaining > 0.0 {
      assert forall j :: 0 <= j < k ==> ratios[order[j]] >= theta';
      assert forall j :: k < j < |order| ==> ratios[order[j]] <= theta';
    }
  }

  /** Continues the fill from stratum order[k] to a certified optimum. */
  lemma {:induction false} CertifyFrom(weights: seq<real>, masses: seq<real>, m: real, order: seq<nat>, k: nat,
                                       remaining: real, means: seq<real>, theta: real)
    returns (means': seq<real>, theta': real)
    requires WellFormed(weights, masses) && IsIndexOrder(order, |weights|) && k <= |order|
    requires Descending(Ratios(weights, masses), order)
    requires Filled(weights, Ratios(weights, masses), m, order, k, remaining, means, theta)
    ensures Certificate(weights, masses, m, means', theta')
    ensures Dot(masses, means') == Dot(masses, means) + Fill(weights, masses, order, k, remaining)
    decreases |order| - k
  {
    hide Dot, Earned;
    if k == |order| {
      means', theta' := means, if remaining > 0.0 then 0.0 else theta;
      FilledIsCertified(weights, masses, m, order, remaining, means', theta');
    } else {
      var i := order[k];
      var amount := Min(weights[i], remaining);
      var share := amount / weights[i];
      Share(weights[i], masses[i], remaining);
      RatiosNonNegative(weights, masses);
      var price := FillStep(weights, Ratios(weights, masses), m, order, k, remaining, means, theta, share);
      DotUpdate(masses, means, i, share);
      means', theta' := CertifyFrom(weights, masses, m, order, k + 1, Max(0.0, remaining - amount), means[i := share], price);
    }
  }

  /** The greedy fill of any ratio-sorted order has a certificate, however ties are placed. */
  lemma GreedyCertificate(weights: seq<real>, masses: seq<real>, order: seq<nat>, m: real)
    returns (means: seq<real>, theta: real)
    requires WellFormed(weights, masses) && weights != [] && m >= 0.0
    requires IsIndexOrder(order, |weights|) && Descending(Ratios(weights, masses), order)
    ensures Certificate(weights, masses, m, means, theta)
    ensures Dot(masses, means) == Fill(weights, masses, order, 0, m)
  {
    RatiosNonNegative(weights, masses);
    assert 0 in order;
    var empty := Constant(|weights|, 0.0);
    DotZero(weights, empty);
    DotZero(masses, empty);
    means, theta := CertifyFrom(weights, masses, m, order, 0, m, empty, Ratios(weights, masses)[order[0]]);
  }

  lemma RatiosNonNegative(weights: seq<real>, masses: seq<real>)
    requires WellFormed(weights, masses)
    ensures forall i :: 0 <= i < |weights| ==>
      Ratios(weights, masses)[i] >= 0.0 && Ratios(weights, masses)[i] * weights[i] == masses[i]
  {
  }

  lemma FilledIsCertified(weights: seq<real>, masses: seq<real>, m: real, order: seq<nat>,
                          remaining: real, means: seq<real>, theta: real)
    requires WellFormed(weights, masses) && IsIndexOrder(order, |weights|)
    requires Filled(weights, Ratios(weights, masses), m, order, |order|, remaining, means, theta)
    requires remaining > 0.0 ==> theta == 0.0
    ensures Certificate(weights, masses, m, means, theta)
  {
    hide Dot;
    var ratios := Ratios(weights, masses);
    RatiosNonNegative(weights, masses);
    forall i | 0 <= i < |weights|
      ensures masses[i] > theta * weights[i] ==> means[i] == 1.0
      ensures masses[i] < theta * weights[i] ==> means[i] == 0.0
    {
      assert i in order;
      var j :| 0 <= j < |order| && order[j] == i;
      var ratio := ratios[i];
      assert ratio * weights[i] == masses[i];
      ComparePrice(ratio, theta, weights[i]);
      if remaining > 0.0 {
        assert means[order[j]] == 1.0 && ratio >= 0.0;
      } else {
        assert ratio > theta ==> means[order[j]] == 1.0;
        assert ratio < theta ==> means[order[j]] == 0.0;
      }
    }
  }

  lemma ComparePrice(ratio: real, theta: real, weight: real)
    requires weight > 0.0
    ensures ratio * weight > theta * weight <==> ratio > theta
    ensures ratio * weight < theta * weight <==> ratio < theta
  {
    assert ratio * weight - theta * weight == (ratio - theta) * weight;
  }

  /**
   The knapsack value as a function of the inputs. Its meaning is NullValueIsMaximum:
   it is the value of the linear program.
   */
  function NullValue(weights: seq<real>, masses: seq<real>, m: real): real
    requires WellFormed(weights, masses)
  {
    Fill(weights, masses, RatioOrder(Ratios(weights, masses), |weights|), 0, m)
  }

  /** The greedy value is the maximum of the program, for every budget. */
  lemma NullValueIsMaximum(weights: seq<real>, masses: seq<real>, m: real)
    requires WellFormed(weights, masses) && weights != [] && m >= 0.0
    ensures IsMaximum(weights, masses, m, NullValue(weights, masses, m))
  {
    var means, theta := GreedyCertificate(weights, masses, RatioOrder(Ratios(weights, masses), |weights|), m);
    CertificateIsMaximum(weights, masses, m, means, theta);
  }

  /** Ties in mass per weight may be visited in any order. */
  lemma TiesDoNotMatter(weights: seq<real>, masses: seq<real>, order: seq<nat>, m: real)
    requires WellFormed(weights, masses) && weights != [] && m >= 0.0
    requires IsIndexOrder(order, |weights|) && Descending(Ratios(weights, masses), order)
    ensures Fill(weights, masses, order, 0, m) == NullValue(weights, masses, m)
  {
    var means, theta := GreedyCertificate(weights, masses, order, m);
    CertificateIsMaximum(weights, masses, m, means, theta);
    NullValueIsMaximum(weights, masses, m);
  }

  lemma NullValueMonotone(weights: seq<real>, masses: seq<real>, low: real, high: real)
    requires WellFormed(weights, masses) && weights != [] && 0.0 <= low <= high
    ensures NullValue(weights, masses, low) <= NullValue(weights, masses, high)
  {
    NullValueIsMaximum(weights, masses, low);
    NullValueIsMaximum(weights, masses, high);
    MaximaOrdered(weights, masses, low, high, NullValue(weights, masses, low), NullValue(weights, masses, high));
  }

  lemma MaximaOrdered(weights: seq<real>, masses: seq<real>, low: real, high: real, v: real, u: real)
    requires |weights| == |masses| && low <= high
    requires IsMaximum(weights, masses, low, v) && IsMaximum(weights, masses, high, u)
    ensures v <= u
  {
    var means :| Feasible(weights, low, means) && Dot(masses, means) == v;
    assert Feasible(weights, high, means);
  }

  /** By how much weights may add up to more than one: the factor by which means shrink to fit. */
  function Excess(weights: seq<real>): real { Max(Sum(weights), 1.0) }

  /** A null of mean one constrains nothing, unless the weights add up to more than one. */
  lemma NullValueAtOne(weights: seq<real>, masses: seq<real>)
    requires ValidInputs(weights, masses, 1.0)
    ensures NullValue(weights, masses, 1.0) <= Sum(masses) <= Mul(NullValue(weights, masses, 1.0), Excess(weights))
  {
    hide NullValue, Mul;
    NullValueIsMaximum(weights, masses, 1.0);
    AtLeastUniform(weights, masses, 1.0, NullValue(weights, masses, 1.0));
    MaximumAtMostAll(weights, masses, 1.0, NullValue(weights, masses, 1.0));
    MulUnits(Sum(masses));
  }

  lemma MaximumAtMostAll(weights: seq<real>, masses: seq<real>, m: real, v: real)
    requires WellFormed(weights, masses) && IsMaximum(weights, masses, m, v)
    ensures v <= Sum(masses)
  {
    var ones := Constant(|weights|, 1.0);
    DotConstant(masses, 1.0);
    var means :| Feasible(weights, m, means) && Dot(masses, means) == v;
    TradeAtPrice(masses, masses, ones, means, 0.0);
  }

  /** The two one-sided nulls at m together expect at least the whole mass, up to that factor. */
  lemma ComplementaryNulls(weights: seq<real>, masses: seq<real>, m: real)
    requires ValidInputs(weights, masses, m)
    ensures Mul(NullValue(weights, masses, m) + NullValue(weights, masses, 1.0 - m), Excess(weights)) >= Sum(masses)
  {
    hide NullValue, IsMaximum, Sum, Excess;
    NullValueIsMaximum(weights, masses, m);
    NullValueIsMaximum(weights, masses, 1.0 - m);
    AtLeastUniform(weights, masses, m, NullValue(weights, masses, m));
    AtLeastUniform(weights, masses, 1.0 - m, NullValue(weights, masses, 1.0 - m));
    AddsUp(Sum(masses), m, NullValue(weights, masses, m), NullValue(weights, masses, 1.0 - m), Excess(weights));
  }

  lemma AddsUp(total: real, m: real, v: real, u: real, excess: real)
    requires Mul(v, excess) >= Mul(total, m) && Mul(u, excess) >= Mul(total, 1.0 - m)
    ensures Mul(v + u, excess) >= total
  {
    assert total * m + total * (1.0 - m) == total;
    assert (v + u) * excess == v * excess + u * excess;
  }

  /** Giving every stratum the null mean, shrunk to fit, is feasible. */
  lemma AtLeastUniform(weights: seq<real>, masses: seq<real>, m: real, v: real)
    requires ValidInputs(weights, masses, m) && IsMaximum(weights, masses, m, v)
    ensures Mul(v, Excess(weights)) >= Mul(Sum(masses), m)
  {
    hide Sum, Dot;
    var excess := Excess(weights);
    var share := m / excess;
    ShrunkMean(Sum(weights), Sum(masses), m, excess, share);
    DotConstant(weights, share);
    DotConstant(masses, share);
    assert Feasible(weights, m, Constant(|weights|, share));
    assert v >= Sum(masses) * share;
    assert (v - Sum(masses) * share) * excess >= 0.0;
  }

  lemma ShrunkMean(total: real, mass: real, m: real, excess: real, share: real)
    requires excess == Max(total, 1.0) && share == m / excess && 0.0 <= m <= 1.0
    ensures 0.0 <= share <= 1.0 && total * share <= m && mass * share * excess == mass * m
  {
    assert share * excess == m;
    ComparePrice(share, 0.0, excess);
    ComparePrice(share, 1.0, excess);
    assert (excess - total) * share >= 0.0;
    assert mass * share * excess == mass * (share * excess);
  }

  /**
   The code's function: it refuses ill-formed strata and otherwise returns the
   value of the linear program.
   */
  method MaximumWeightedNullExpectation(weights: seq<real>, masses: seq<real>, nullMean: real)
    returns (r: Result<real>)
    ensures r.Success? <==> ValidInputs(weights, masses, nullMean)
    ensures r.Success? ==> r.value == NullValue(weights, masses, nullMean)
    ensures r.Success? ==> IsMaximum(weights, masses, nullMean, r.value)
  {
    if !ValidInputs(weights, masses, nullMean) {
      return Failure("invalid weighted null stratum inputs");
    }
    var order := RatioOrder(Ratios(weights, masses), |weights|);
    var remaining, total := nullMean, 0.0;
    for k := 0 to |order|
      invariant total + Fill(weights, masses, order, k, remaining) == NullValue(weights, masses, nullMean)
    {
      var weight, mass := weights[order[k]], masses[order[k]];
      var amount := Min(weight, remaining);
      total := total + Earned(weight, mass, amount);
      remaining := Max(0.0, remaining - amount);
    }
    NullValueIsMaximum(weights, masses, nullMean);
    r := Success(total);
  }
}
