/** How often a bound errs, over all runs of a plan. */
module Soundness {
  // Scores are drawn one after another from distributions on [0,1] that the plan may choose
  // from everything drawn before. The mixture's weighted average over the next draw never
  // rises, so the runs in which it ever reaches 1/error weigh at most error.

  import opened RealVectors
  import opened Exponentials
  import opened NullExpectation
  import opened Evidence
  import opened WeightedTest
  import opened PrefixTest

  // Weighted averages.

  datatype Draw = Draw(chance: real, score: real)

  /** A finite distribution of one score. */
  type Law = seq<Draw>

  function TotalChance(law: Law): real
  {
    if law == [] then 0.0 else TotalChance(law[..|law|-1]) + law[|law|-1].chance
  }

  ghost predicate IsPart(law: Law)
  {
    forall i :: 0 <= i < |law| ==> law[i].chance >= 0.0 && 0.0 <= law[i].score <= 1.0
  }

  ghost predicate IsLaw(law: Law)
  {
    IsPart(law) && TotalChance(law) == 1.0
  }

  function Expect(law: Law, f: real -> real): real
  {
    if law == [] then 0.0 else Expect(law[..|law|-1], f) + Mul(law[|law|-1].chance, f(law[|law|-1].score))
  }

  function MeanOf(law: Law): real
  {
    if law == [] then 0.0 else MeanOf(law[..|law|-1]) + Mul(law[|law|-1].chance, law[|law|-1].score)
  }

  lemma {:induction false} ExpectMonotone(law: Law, f: real -> real, g: real -> real)
    requires IsPart(law) && forall i :: 0 <= i < |law| ==> f(law[i].score) <= g(law[i].score)
    ensures Expect(law, f) <= Expect(law, g)
  {
    hide Mul;
    if law != [] {
      var k := |law| - 1;
      ExpectMonotone(law[..k], f, g);
      MulOrdered(law[k].chance, f(law[k].score), g(law[k].score));
    }
  }

  lemma MulOrdered(w: real, x: real, y: real)
    requires w >= 0.0 && x <= y
    ensures Mul(w, x) <= Mul(w, y)
  {
    assert w * (y - x) >= 0.0;
  }

  /** A linear combination of two functions that agrees with a third. */
  lemma {:induction false} ExpectLinear(law: Law, c: real, f: real -> real, d: real, g: real -> real, h: real -> real)
    requires forall x :: h(x) == Mul(c, f(x)) + Mul(d, g(x))
    ensures Expect(law, h) == Mul(c, Expect(law, f)) + Mul(d, Expect(law, g))
  {
    hide Mul;
    if law == [] {
      MulUnits(c);
      MulUnits(d);
    } else {
      var k := |law| - 1;
      var draw := law[k];
      ExpectLinear(law[..k], c, f, d, g, h);
      LinearTerm(draw.chance, c, f(draw.score), d, g(draw.score), Expect(law[..k], f), Expect(law[..k], g));
    }
  }

  lemma LinearTerm(w: real, c: real, x: real, d: real, y: real, p: real, q: real)
    ensures Mul(c, p) + Mul(d, q) + Mul(w, Mul(c, x) + Mul(d, y)) == Mul(c, p + Mul(w, x)) + Mul(d, q + Mul(w, y))
  {
    assert w * (c * x + d * y) == c * (w * x) + d * (w * y);
  }

  // One draw.

  /** Hoeffding's inequality for a score that is 1 with chance p and 0 otherwise. */
  ghost predicate BoundedBy(exp: real -> real, p: real, r: real)
  {
    Mul(p, exp(Mul(r, 1.0 - p))) + Mul(1.0 - p, exp(-Mul(r, p))) <= exp(Mul(r, r) / 8.0)
  }

  /** The exponential lies below its chord. */
  ghost predicate BelowChord(exp: real -> real, r: real, x: real)
  {
    exp(Mul(r, x)) <= 1.0 - x + Mul(x, exp(r))
  }

  ghost predicate Hoeffding(exp: real -> real)
  {
    && Exponential(exp)
    && (forall p, r :: 0.0 <= p <= 1.0 ==> BoundedBy(exp, p, r))
    && (forall r, x :: 0.0 <= x <= 1.0 ==> BelowChord(exp, r, x))
  }

  function Power(exp: real -> real, r: real, shift: real): real -> real
  {
    (x: real) => exp(Mul(r, x - shift))
  }

  lemma {:induction false} BelowChords(exp: real -> real, law: Law, r: real)
    requires Hoeffding(exp) && IsPart(law)
    ensures Expect(law, Power(exp, r, 0.0)) <= TotalChance(law) - MeanOf(law) + Mul(MeanOf(law), exp(r))
  {
    hide Mul, Exponential;
    if law == [] {
      MulUnits(exp(r));
    } else {
      var k := |law| - 1;
      var draw := law[k];
      BelowChords(exp, law[..k], r);
      assert BelowChord(exp, r, draw.score);
      assert draw.score - 0.0 == draw.score;
      MulOrdered(draw.chance, exp(Mul(r, draw.score)), 1.0 - draw.score + Mul(draw.score, exp(r)));
      ChordTerm(draw.chance, draw.score, exp(r), MeanOf(law[..k]));
    }
  }

  lemma ChordTerm(w: real, x: real, e: real, mean: real)
    ensures Mul(w, 1.0 - x + Mul(x, e)) + Mul(mean, e) == w - Mul(w, x) + Mul(mean + Mul(w, x), e)
  {
    assert w * (1.0 - x + x * e) == w - w * x + w * x * e;
  }

  lemma {:induction false} MeanInUnit(law: Law)
    requires IsPart(law)
    ensures 0.0 <= MeanOf(law) <= TotalChance(law)
  {
    hide Mul;
    if law != [] {
      var k := |law| - 1;
      MeanInUnit(law[..k]);
      MulOrdered(law[k].chance, 0.0, law[k].score);
      MulOrdered(law[k].chance, law[k].score, 1.0);
      MulUnits(law[k].chance);
    }
  }

  lemma ShiftPower(exp: real -> real, r: real, mean: real, x: real)
    requires Exponential(exp)
    ensures Power(exp, r, mean)(x) == Mul(exp(-Mul(r, mean)), Power(exp, r, 0.0)(x)) + Mul(0.0, Power(exp, r, 0.0)(x))
  {
    hide Exponential;
    ProductOfPowers(exp, -Mul(r, mean), Mul(r, x));
    assert Mul(r, x - mean) == -Mul(r, mean) + Mul(r, x) && x - 0.0 == x;
    MulUnits(Power(exp, r, 0.0)(x));
  }

  /** Hoeffding's inequality for every distribution on [0,1]. */
  lemma HoeffdingForLaws(exp: real -> real, law: Law, r: real)
    requires Hoeffding(exp) && IsLaw(law)
    ensures Expect(law, Power(exp, r, MeanOf(law))) <= exp(Mul(r, r) / 8.0)
  {
    hide *;
    var mean := MeanOf(law);
    var back := exp(-Mul(r, mean));
    LawMeans(law);
    BelowChords(exp, law, r);
    HoeffdingAt(exp, mean, r);
    forall x
      ensures Power(exp, r, mean)(x) == Mul(back, Power(exp, r, 0.0)(x)) + Mul(0.0, Power(exp, r, 0.0)(x))
    {
      ShiftPower(exp, r, mean, x);
    }
    ExpectLinear(law, back, Power(exp, r, 0.0), 0.0, Power(exp, r, 0.0), Power(exp, r, mean));
    MulUnits(Expect(law, Power(exp, r, 0.0)));
    MulOrdered(back, Expect(law, Power(exp, r, 0.0)), 1.0 - mean + Mul(mean, exp(r)));
    BackTerm(back, mean, exp(r));
  }

  lemma LawMeans(law: Law)
    requires IsLaw(law)
    ensures IsPart(law) && TotalChance(law) == 1.0 && 0.0 <= MeanOf(law) <= 1.0
  {
    MeanInUnit(law);
  }

  lemma HoeffdingAt(exp: real -> real, mean: real, r: real)
    requires Hoeffding(exp) && 0.0 <= mean <= 1.0
    ensures Exponential(exp) && exp(-Mul(r, mean)) > 0.0
    ensures Mul(mean, Mul(exp(-Mul(r, mean)), exp(r))) + Mul(1.0 - mean, exp(-Mul(r, mean))) <= exp(Mul(r, r) / 8.0)
  {
    assert BoundedBy(exp, mean, r);
    Opposite(exp, -Mul(r, mean));
    ProductOfPowers(exp, -Mul(r, mean), r);
    assert Mul(r, 1.0 - mean) == -Mul(r, mean) + r;
    hide Mul, Exponential;
  }

  lemma BackTerm(back: real, mean: real, e: real)
    ensures Mul(back, 1.0 - mean + Mul(mean, e)) == Mul(1.0 - mean, back) + Mul(mean, Mul(back, e))
  {
  }

  // One draw and the mixture.

  /** The exponential of one rate after a score that counts with this coefficient. */
  function RateAfter(exp: real -> real, rate: real, centered: real, information: real, coefficient: real, mean: real): real -> real
  {
    (x: real) => exp(Exponent(rate, centered + Mul(coefficient, x - mean), information + Mul(coefficient, coefficient)))
  }

  lemma ExponentAfter(rate: real, centered: real, information: real, a: real, y: real)
    ensures var r := Mul(rate, a);
      Exponent(rate, centered + Mul(a, y), information + Mul(a, a)) == Exponent(rate, centered, information) + -(Mul(r, r) / 8.0) + Mul(r, y)
  {
    assert rate * (centered + a * y) == rate * centered + rate * a * y;
    assert rate * rate * (information + a * a) == rate * rate * information + (rate * a) * (rate * a);
  }

  lemma RateIsPower(exp: real -> real, rate: real, centered: real, information: real, a: real, mean: real, x: real)
    requires Exponential(exp)
    ensures var r := Mul(rate, a);
      var k := Mul(exp(Exponent(rate, centered, information)), exp(-(Mul(r, r) / 8.0)));
      RateAfter(exp, rate, centered, information, a, mean)(x) == Mul(k, Power(exp, r, mean)(x)) + Mul(0.0, Power(exp, r, mean)(x))
  {
    hide Mul, Exponential, Exponent;
    var r := Mul(rate, a);
    ExponentAfter(rate, centered, information, a, x - mean);
    ProductOfPowers(exp, Exponent(rate, centered, information) + -(Mul(r, r) / 8.0), Mul(r, x - mean));
    ProductOfPowers(exp, Exponent(rate, centered, information), -(Mul(r, r) / 8.0));
    MulUnits(Power(exp, r, mean)(x));
  }

  /** The weighted average of one rate's exponential never rises. */
  lemma RateStep(exp: real -> real, rate: real, centered: real, information: real, a: real, law: Law)
    requires Hoeffding(exp) && IsLaw(law)
    ensures Expect(law, RateAfter(exp, rate, centered, information, a, MeanOf(law))) <= exp(Exponent(rate, centered, information))
  {
    hide *;
    var mean, r := MeanOf(law), Mul(rate, a);
    var now, drop := exp(Exponent(rate, centered, information)), exp(-(Mul(r, r) / 8.0));
    var power := Power(exp, r, mean);
    LawMeans(law);
    HoeffdingAt(exp, mean, r);
    forall x
      ensures RateAfter(exp, rate, centered, information, a, mean)(x) == Mul(Mul(now, drop), power(x)) + Mul(0.0, power(x))
    {
      RateIsPower(exp, rate, centered, information, a, mean, x);
    }
    ExpectLinear(law, Mul(now, drop), power, 0.0, power, RateAfter(exp, rate, centered, information, a, mean));
    MulUnits(Expect(law, power));
    HoeffdingForLaws(exp, law, r);
    Opposite(exp, Mul(r, r) / 8.0);
    Opposite(exp, -(Mul(r, r) / 8.0));
    Opposite(exp, Exponent(rate, centered, information));
    CancelDrop(now, drop, exp(Mul(r, r) / 8.0), Expect(law, power));
  }

  lemma CancelDrop(now: real, drop: real, rise: real, mean: real)
    requires now > 0.0 && drop > 0.0 && Mul(rise, drop) == 1.0 && mean <= rise
    ensures Mul(Mul(now, drop), mean) <= now
  {
    assert now * drop > 0.0;
    assert now * drop * (rise - mean) >= 0.0;
    assert now * drop * rise == now * (rise * drop);
  }

  function MixtureAfter(exp: real -> real, centered: real, information: real, coefficient: real, mean: real, k: nat): real -> real
    requires k <= |LAMBDAS|
  {
    (x: real) => MixtureSum(exp, centered + Mul(coefficient, x - mean), information + Mul(coefficient, coefficient), k)
  }

  lemma {:induction false} ExpectNothing(law: Law, f: real -> real)
    requires forall x :: f(x) == 0.0
    ensures Expect(law, f) == 0.0
  {
    if law != [] {
      ExpectNothing(law[..|law|-1], f);
      MulUnits(law[|law|-1].chance);
    }
  }

  /** The mixture is a supermartingale: its weighted average over one draw is at most what it was. */
  lemma {:induction false} MixtureStep(exp: real -> real, centered: real, information: real, a: real, law: Law, k: nat)
    requires Hoeffding(exp) && IsLaw(law) && k <= |LAMBDAS|
    ensures Expect(law, MixtureAfter(exp, centered, information, a, MeanOf(law), k)) <= MixtureSum(exp, centered, information, k)
  {
    hide *;
    var mean := MeanOf(law);
    var after := MixtureAfter(exp, centered, information, a, mean, k);
    if k == 0 {
      forall x ensures after(x) == 0.0 { SumAfter(exp, centered, information, a, mean, k, x); }
      ExpectNothing(law, after);
      SumNow(exp, centered, information, k);
    } else {
      var before := MixtureAfter(exp, centered, information, a, mean, k - 1);
      var last := RateAfter(exp, LAMBDAS[k-1], centered, information, a, mean);
      MixtureStep(exp, centered, information, a, law, k - 1);
      RateStep(exp, LAMBDAS[k-1], centered, information, a, law);
      forall x
        ensures after(x) == Mul(1.0, before(x)) + Mul(1.0, last(x))
      {
        SumAfter(exp, centered, information, a, mean, k, x);
        MulUnits(before(x));
        MulUnits(last(x));
      }
      ExpectLinear(law, 1.0, before, 1.0, last, after);
      MulUnits(Expect(law, before));
      MulUnits(Expect(law, last));
      SumNow(exp, centered, information, k);
    }
  }

  lemma SumAfter(exp: real -> real, centered: real, information: real, a: real, mean: real, k: nat, x: real)
    requires k <= |LAMBDAS|
    ensures MixtureAfter(exp, centered, information, a, mean, k)(x) == if k == 0 then 0.0
      else MixtureAfter(exp, centered, information, a, mean, k - 1)(x) + RateAfter(exp, LAMBDAS[k-1], centered, information, a, mean)(x)
  {
    hide Mul, Exponent;
    SumNow(exp, centered + Mul(a, x - mean), information + Mul(a, a), k);
    assert MixtureAfter(exp, centered, information, a, mean, k)(x) == MixtureSum(exp, centered + Mul(a, x - mean), information + Mul(a, a), k);
  }

  lemma SumNow(exp: real -> real, centered: real, information: real, k: nat)
    requires k <= |LAMBDAS|
    ensures MixtureSum(exp, centered, information, k) == if k == 0 then 0.0
      else MixtureSum(exp, centered, information, k - 1) + exp(Exponent(LAMBDAS[k-1], centered, information))
  {
  }

  // Runs of a plan.

  /** The next score's stratum, its coefficient and its distribution. */
  datatype Pick = Pick(stratum: nat, coefficient: real, law: Law)

  /** The plan may depend on every score drawn before. */
  type Plan = seq<real> -> Pick

  /** Each stratum keeps its mean; everything else about a pick is free. */
  ghost predicate Fair(plan: Plan, means: seq<real>)
  {
    forall drawn :: IsFairPick(plan(drawn), means)
  }

  ghost predicate IsFairPick(pick: Pick, means: seq<real>)
  {
    IsLaw(pick.law) && pick.coefficient >= 0.0 && pick.stratum < |means| && MeanOf(pick.law) == means[pick.stratum]
  }

  /** The allocation after one more score. */
  function After(a: Allocation, pick: Pick, score: real): Allocation
  {
    var k := pick.coefficient;
    Allocation(a.score + Mul(k, score), a.information + Mul(k, k), a.weights,
               if pick.stratum < |a.masses| then a.masses[pick.stratum := a.masses[pick.stratum] + k] else a.masses)
  }

  /** How much the runs weigh in which the event holds now or after one of the next n scores. */
  function Chance(plan: Plan, drawn: seq<real>, a: Allocation, event: Allocation -> bool, n: nat): real
    decreases n, 0
  {
    if event(a) then 1.0
    else if n == 0 then 0.0
    else Expect(plan(drawn).law, ChanceAfter(plan, drawn, a, event, n))
  }

  function ChanceAfter(plan: Plan, drawn: seq<real>, a: Allocation, event: Allocation -> bool, n: nat): real -> real
    requires n > 0
    decreases n - 1, 1
  {
    (x: real) => Chance(plan, drawn + [x], After(a, plan(drawn), x), event, n - 1)
  }

  /** The score seen from a direction counts with this sign. */
  function Signed(direction: Direction, k: real): real { if direction == Greater then k else -k }

  lemma CenteredAfter(direction: Direction, a: Allocation, pick: Pick, means: seq<real>, x: real)
    requires |a.masses| == |means| && pick.stratum < |means|
    ensures var after := After(a, pick, x);
      && |after.masses| == |means|
      && after.CenteredAt(direction, means)
           == a.CenteredAt(direction, means) + Mul(Signed(direction, pick.coefficient), x - means[pick.stratum])
      && after.information == a.information + Mul(Signed(direction, pick.coefficient), Signed(direction, pick.coefficient))
  {
    var s, k := pick.stratum, pick.coefficient;
    DotSymmetric(a.masses, means);
    DotUpdate(means, a.masses, s, a.masses[s] + k);
    DotSymmetric(a.masses[s := a.masses[s] + k], means);
    assert means[s] * k == k * means[s];
    assert k * (x - means[s]) == k * x - k * means[s];
    assert -k * (x - means[s]) == -(k * (x - means[s]));
    hide Dot;
  }

  function Mixture(exp: real -> real, centered: real, information: real): real
  {
    MixtureSum(exp, centered, information, |LAMBDAS|) / |LAMBDAS| as real
  }

  /** The event happens only when the mixture centred at the true means has reached 1/error. */
  ghost predicate NeedsEvidence(exp: real -> real, error: real, direction: Direction, means: seq<real>, event: Allocation -> bool)
    requires 0.0 < error < 1.0
  {
    forall a: Allocation :: |a.masses| == |means| && event(a) ==> Exceeds(exp, a.CenteredAt(direction, means), a.information, error)
  }

  lemma ReachedIsWorth(mixture: real, error: real)
    requires 0.0 < error < 1.0 && mixture >= 1.0 / error
    ensures Mul(error, mixture) >= 1.0
  {
    assert error * (mixture - 1.0 / error) >= 0.0;
    assert error * (1.0 / error) == 1.0;
  }

  /** Ville's inequality: the runs in which the event ever happens weigh at most error times the mixture now. */
  lemma {:induction false} Ville(exp: real -> real, error: real, direction: Direction, means: seq<real>, event: Allocation -> bool,
                                 plan: Plan, drawn: seq<real>, a: Allocation, n: nat)
    requires Hoeffding(exp) && 0.0 < error < 1.0 && Fair(plan, means) && |a.masses| == |means|
    requires NeedsEvidence(exp, error, direction, means, event)
    ensures Chance(plan, drawn, a, event, n) <= Mul(error, Mixture(exp, a.CenteredAt(direction, means), a.information))
    decreases n
  {
    hide *;
    var now := a.CenteredAt(direction, means);
    ChanceNow(plan, drawn, a, event, n);
    if event(a) {
      EventIsWorth(exp, error, direction, means, event, a);
    } else if n == 0 {
      NoEvidenceIsWorth(exp, error, now, a.information);
    } else {
      var pick := plan(drawn);
      FairPick(plan, means, drawn);
      var k, mean := Signed(direction, pick.coefficient), means[pick.stratum];
      var after := WorthAfter(exp, error, now, a.information, k, mean);
      forall i | 0 <= i < |pick.law|
        ensures ChanceAfter(plan, drawn, a, event, n)(pick.law[i].score) <= after(pick.law[i].score)
      {
        var x := pick.law[i].score;
        CenteredAfter(direction, a, pick, means, x);
        Ville(exp, error, direction, means, event, plan, drawn + [x], After(a, pick, x), n - 1);
        OneAfter(exp, error, now, a.information, k, mean, x, plan, drawn, a, event, n);
      }
      ExpectMonotone(pick.law, ChanceAfter(plan, drawn, a, event, n), after);
      WorthStep(exp, error, now, a.information, k, pick.law);
    }
  }

  lemma ChanceNow(plan: Plan, drawn: seq<real>, a: Allocation, event: Allocation -> bool, n: nat)
    ensures Chance(plan, drawn, a, event, n) == if event(a) then 1.0 else if n == 0 then 0.0
      else Expect(plan(drawn).law, ChanceAfter(plan, drawn, a, event, n))
  {
  }

  lemma OneAfter(exp: real -> real, error: real, centered: real, information: real, k: real, mean: real, x: real,
                 plan: Plan, drawn: seq<real>, a: Allocation, event: Allocation -> bool, n: nat)
    requires n > 0
    ensures WorthAfter(exp, error, centered, information, k, mean)(x)
      == Mul(error, Mixture(exp, centered + Mul(k, x - mean), information + Mul(k, k)))
    ensures ChanceAfter(plan, drawn, a, event, n)(x) == Chance(plan, drawn + [x], After(a, plan(drawn), x), event, n - 1)
  {
  }

  lemma EventIsWorth(exp: real -> real, error: real, direction: Direction, means: seq<real>, event: Allocation -> bool, a: Allocation)
    requires 0.0 < error < 1.0 && NeedsEvidence(exp, error, direction, means, event) && |a.masses| == |means| && event(a)
    ensures Mul(error, Mixture(exp, a.CenteredAt(direction, means), a.information)) >= 1.0
  {
    hide MixtureSum, Mul;
    ReachedIsWorth(Mixture(exp, a.CenteredAt(direction, means), a.information), error);
  }

  lemma FairPick(plan: Plan, means: seq<real>, drawn: seq<real>)
    requires Fair(plan, means)
    ensures IsFairPick(plan(drawn), means) && IsPart(plan(drawn).law)
  {
  }

  lemma NoEvidenceIsWorth(exp: real -> real, error: real, centered: real, information: real)
    requires Hoeffding(exp) && error > 0.0
    ensures Mul(error, Mixture(exp, centered, information)) >= 0.0
  {
    MixtureHasTerm(exp, centered, information, |LAMBDAS|, 0);
    hide MixtureSum;
  }

  function WorthAfter(exp: real -> real, error: real, centered: real, information: real, k: real, mean: real): real -> real
  {
    (x: real) => Mul(error, Mixture(exp, centered + Mul(k, x - mean), information + Mul(k, k)))
  }

  lemma WorthStep(exp: real -> real, error: real, centered: real, information: real, k: real, law: Law)
    requires Hoeffding(exp) && IsLaw(law) && error > 0.0
    ensures Expect(law, WorthAfter(exp, error, centered, information, k, MeanOf(law))) <= Mul(error, Mixture(exp, centered, information))
  {
    var share := error / |LAMBDAS| as real;
    assert share >= 0.0;
    hide *;
    var mean := MeanOf(law);
    var sums, worth := MixtureAfter(exp, centered, information, k, mean, |LAMBDAS|), WorthAfter(exp, error, centered, information, k, mean);
    MixtureStep(exp, centered, information, k, law, |LAMBDAS|);
    forall x
      ensures worth(x) == Mul(share, sums(x)) + Mul(0.0, sums(x))
    {
      ShareAfter(exp, error, centered, information, k, mean, x);
      MulUnits(sums(x));
    }
    ExpectLinear(law, share, sums, 0.0, sums, worth);
    MulUnits(Expect(law, sums));
    ShareOf(exp, error, centered, information);
    MulOrdered(share, Expect(law, sums), MixtureSum(exp, centered, information, |LAMBDAS|));
  }

  lemma ShareAfter(exp: real -> real, error: real, centered: real, information: real, k: real, mean: real, x: real)
    ensures WorthAfter(exp, error, centered, information, k, mean)(x)
      == Mul(error / |LAMBDAS| as real, MixtureAfter(exp, centered, information, k, mean, |LAMBDAS|)(x))
  {
    ShareOf(exp, error, centered + Mul(k, x - mean), information + Mul(k, k));
    hide Mul, MixtureSum;
  }

  lemma ShareOf(exp: real -> real, error: real, centered: real, information: real)
    ensures Mul(error, Mixture(exp, centered, information))
      == Mul(error / |LAMBDAS| as real, MixtureSum(exp, centered, information, |LAMBDAS|))
  {
    hide MixtureSum;
  }

  // The bounds.

  /** Before the first score. */
  function Empty(weights: seq<real>): Allocation
  {
    Allocation(0.0, 0.0, weights, Constant(|weights|, 0.0))
  }

  lemma {:induction false} MixtureAtStart(exp: real -> real, k: nat)
    requires Grows(exp) && k <= |LAMBDAS|
    ensures MixtureSum(exp, 0.0, 0.0, k) == k as real
  {
    if k > 0 { MixtureAtStart(exp, k - 1); }
  }

  lemma EmptyIsWorth(exp: real -> real, error: real, direction: Direction, weights: seq<real>, means: seq<real>)
    requires Grows(exp) && |weights| == |means|
    ensures Mul(error, Mixture(exp, Empty(weights).CenteredAt(direction, means), Empty(weights).information)) == error
  {
    DotSymmetric(Empty(weights).masses, means);
    DotZero(means, Empty(weights).masses);
    MixtureAtStart(exp, |LAMBDAS|);
    hide Dot, MixtureSum;
  }

  /** The test at m rejects after this allocation. */
  function Rejects(exp: real -> real, error: real, direction: Direction, weights: seq<real>, m: real): Allocation -> bool
    requires 0.0 < error < 1.0
  {
    (a: Allocation) => a.weights == weights && a.Valid() && Exceeds(exp, a.Centered(direction, m), a.information, error)
  }

  /**
   The promotion test is sound at any time. Whatever the plan, and however long it runs, the
   runs in which the test ever rejects an m that the true stratum means comply with weigh at
   most error.
   */
  lemma TestIsSound(exp: real -> real, error: real, direction: Direction, weights: seq<real>, means: seq<real>, m: real, plan: Plan, n: nat)
    requires Hoeffding(exp) && 0.0 < error < 1.0 && Fair(plan, means) && |weights| == |means| && 0.0 <= m <= 1.0
    requires Empty(weights).Null(direction, m, means)
    ensures Chance(plan, [], Empty(weights), Rejects(exp, error, direction, weights, m), n) <= error
  {
    var event := Rejects(exp, error, direction, weights, m);
    forall a: Allocation | |a.masses| == |means| && event(a)
      ensures Exceeds(exp, a.CenteredAt(direction, means), a.information, error)
    {
      hide Exceeds;
      a.CenteredIsDominated(direction, m, means);
      ExceedsMonotone(exp, a.Centered(direction, m), a.CenteredAt(direction, means), a.information, error);
    }
    hide *;
    Ville(exp, error, direction, means, event, plan, [], Empty(weights), n);
    HoeffdingGrows(exp);
    EmptyIsWorth(exp, error, direction, weights, means);
  }

  lemma HoeffdingGrows(exp: real -> real)
    requires Hoeffding(exp)
    ensures Grows(exp)
  {
  }

  /** A returned bound that lies beyond m means that the test at m rejects. */
  lemma ExcludedIsRejected(exp: real -> real, error: real, direction: Direction, a: Allocation, bound: real, m: real)
    requires a.Valid() && 0.0 < error < 1.0 && 0.0 <= m <= 1.0
    requires IsBound(direction, a.Test(exp, direction, error), bound)
    requires if direction == Greater then m < bound else bound < m
    ensures Rejects(exp, error, direction, a.weights, m)(a)
  {
    assert Beyond(direction, bound, m);
  }

  lemma SumUpdate(masses: seq<real>, i: nat, x: real)
    requires i < |masses|
    ensures Sum(masses[i := x]) == Sum(masses) + x - masses[i]
  {
    var ones := Constant(|masses|, 1.0);
    DotConstant(masses, 1.0);
    DotConstant(masses[i := x], 1.0);
    DotSymmetric(masses, ones);
    DotSymmetric(masses[i := x], ones);
    DotUpdate(ones, masses, i, x);
    hide Sum, Dot;
  }

  /** Every allocation of a run is one that the test accepts. */
  lemma AfterIsValid(a: Allocation, pick: Pick, x: real)
    requires a.Valid() && pick.stratum < |a.masses| && pick.coefficient >= 0.0 && 0.0 <= x <= 1.0
    ensures After(a, pick, x).Valid()
  {
    var k := pick.coefficient;
    SumUpdate(a.masses, pick.stratum, a.masses[pick.stratum] + k);
    MulOrdered(k, 0.0, x);
    MulOrdered(k, x, 1.0);
    MulOrdered(k, 0.0, k);
    MulUnits(k);
    hide Mul, Sum, NearOne;
  }

  // The tests of one cell and of whole cycles are such tests.

  function Reached(plan: Plan, a: Allocation, drawn: seq<real>): Allocation
  {
    if drawn == [] then a
    else After(Reached(plan, a, drawn[..|drawn|-1]), plan(drawn[..|drawn|-1]), drawn[|drawn|-1])
  }

  /** One score per pair, the severities in turn. */
  ghost predicate InTurn(plan: Plan, length: nat)
    requires length > 0
  {
    forall drawn: seq<real> :: plan(drawn).coefficient == 1.0 && plan(drawn).stratum == |drawn| % length
  }

  /** Taking the severities in turn reaches exactly the allocations of the prefix test. */
  lemma {:induction false} InTurnReaches(plan: Plan, length: nat, drawn: seq<real>)
    requires length > 0 && InTurn(plan, length)
    ensures Reached(plan, Empty(CycleWeights(length)), drawn) == AsPrefixAllocation(drawn, length)
  {
    if drawn == [] {
      DivideOut(0, 0, length);
      assert Counts(0, length) == Constant(length, 0.0);
      assert Sum([]) == 0.0;
    } else {
      var k := |drawn| - 1;
      InTurnReaches(plan, length, drawn[..k]);
      NextSample(k, length);
      MulUnits(drawn[k]);
      MulUnits(1.0);
      assert |drawn[..k]| == k;
      assert Counts(k, length)[k % length := Counts(k, length)[k % length] + 1.0] == Counts(k + 1, length);
    }
  }

  /** The complete-cycle test at m rejects after this allocation, whose masses are in proportion to the weights. */
  function CycleRejects(exp: real -> real, error: real, direction: Direction, weights: seq<real>, m: real): Allocation -> bool
    requires 0.0 < error < 1.0
  {
    (a: Allocation) =>
      a.information >= 0.0 && a.masses == Scaled(a.information, weights)
      && Exceeds(exp, Signed(direction, a.score - Mul(a.information, m)), a.information, error)
  }

  /** That is the code's test: the allocation of n cycles has their scaled score, and their pairs as information. */
  lemma CycleTestRejects(exp: real -> real, error: real, direction: Direction, weights: seq<real>, m: real,
                         scores: seq<real>, pairsPerCycle: real, a: Allocation)
    requires 0.0 < error < 1.0 && 0.0 <= m <= 1.0 && pairsPerCycle > 0.0
    requires a.score == Mul(pairsPerCycle, Sum(scores)) && a.information == |scores| as real * pairsPerCycle
    requires a.masses == Scaled(a.information, weights)
    ensures CycleRejects(exp, error, direction, weights, m)(a) == CycleTest(exp, direction, scores, pairsPerCycle, error)(m)
  {
    assert |scores| as real * pairsPerCycle >= 0.0;
    hide Exceeds, Sum;
    assert CycleCentered(direction, scores, pairsPerCycle, m) == Signed(direction, a.score - Mul(a.information, m));
  }

  lemma CycleIsDominated(a: Allocation, direction: Direction, weights: seq<real>, means: seq<real>, m: real)
    requires |weights| == |means| && a.information >= 0.0 && a.masses == Scaled(a.information, weights)
    requires if direction == Greater then Dot(weights, means) <= m else Dot(weights, means) >= m
    ensures Signed(direction, a.score - Mul(a.information, m)) <= a.CenteredAt(direction, means)
  {
    hide Dot, Mul;
    DotScale(weights, a.information, a.masses, means);
    if direction == Greater {
      MulOrdered(a.information, Dot(weights, means), m);
    } else {
      MulOrdered(a.information, m, Dot(weights, means));
    }
  }

  /** Complete cycles are sound at any time, too. */
  lemma CycleTestIsSound(exp: real -> real, error: real, direction: Direction, weights: seq<real>, means: seq<real>, m: real, plan: Plan, n: nat)
    requires Hoeffding(exp) && 0.0 < error < 1.0 && Fair(plan, means) && |weights| == |means|
    requires if direction == Greater then Dot(weights, means) <= m else Dot(weights, means) >= m
    ensures Chance(plan, [], Empty(weights), CycleRejects(exp, error, direction, weights, m), n) <= error
  {
    var event := CycleRejects(exp, error, direction, weights, m);
    HoeffdingGrows(exp);
    forall a: Allocation | |a.masses| == |means| && event(a)
      ensures Exceeds(exp, a.CenteredAt(direction, means), a.information, error)
    {
      hide Exceeds, Dot, Mul;
      CycleIsDominated(a, direction, weights, means, m);
      ExceedsMonotone(exp, Signed(direction, a.score - Mul(a.information, m)), a.CenteredAt(direction, means), a.information, error);
    }
    hide *;
    Ville(exp, error, direction, means, event, plan, [], Empty(weights), n);
    EmptyIsWorth(exp, error, direction, weights, means);
  }
}
