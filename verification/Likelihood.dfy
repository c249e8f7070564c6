/** The log-likelihood of a fit: bounds on it from both sides. */
module Likelihood {
  // The logarithm of the logistic function is a parameter. It lies below its tangents, whose
  // slope is one minus the probability, and nowhere further below them than a parabola.

  import opened RealVectors
  import opened Exponentials
  import opened LinearSystem
  import opened Laplacian

  type LogProbability = real -> real

  /** What the two functions are to each other; the two sides' probabilities add up to one. */
  ghost predicate Logistic(prob: real -> real, lp: LogProbability)
  {
    (forall d, e :: Tangent(prob, lp, d, e)) && (forall d, e :: Curved(prob, lp, d, e)) && (forall d, e :: Smooth(prob, d, e))
    && (forall d :: prob(-d) == 1.0 - prob(d))
  }

  ghost predicate Tangent(prob: real -> real, lp: LogProbability, d: real, e: real)
  {
    lp(e) <= lp(d) + Mul(1.0 - prob(d), e - d)
  }

  /** The second derivative is at least -1/4. */
  ghost predicate Curved(prob: real -> real, lp: LogProbability, d: real, e: real)
  {
    lp(e) >= lp(d) + Mul(1.0 - prob(d), e - d) - Mul(e - d, e - d) / 8.0
  }

  /** The probability's derivative is the product of both sides' probabilities, and its second is below 1/10. */
  ghost predicate Smooth(prob: real -> real, d: real, e: real)
  {
    var linear := prob(d) + Mul(Mul(prob(d), 1.0 - prob(d)), e - d);
    linear - Mul(e - d, e - d) / 20.0 <= prob(e) <= linear + Mul(e - d, e - d) / 20.0
  }

  function PairLikelihood(p: Pairing, d: real, lp: LogProbability): real
  {
    Mul(p.firstWins, lp(d)) + Mul(p.secondWins, lp(-d))
  }

  function LogLikelihood(pairs: seq<Pairing>, logits: Logits, lp: LogProbability): real
    requires Rated(pairs, logits)
  {
    if pairs == [] then 0.0
    else
      var p := pairs[|pairs|-1];
      LogLikelihood(pairs[..|pairs|-1], logits, lp) + PairLikelihood(p, logits[p.first] - logits[p.second], lp)
  }

  lemma MulMonotone(w: real, x: real, y: real)
    requires w >= 0.0 && x <= y
    ensures Mul(w, x) <= Mul(w, y)
  {
    assert w * (y - x) >= 0.0;
  }

  lemma ScoreAlgebra(w1: real, w2: real, prob: real, score: real, l: real, m: real, g: real)
    requires score == w1 - (w1 + w2) * prob
    ensures Mul(w1, l + Mul(1.0 - prob, g)) + Mul(w2, m + Mul(prob, -g)) == Mul(w1, l) + Mul(w2, m) + Mul(score, g)
  {
    assert w1 * (l + (1.0 - prob) * g) == w1 * l + w1 * ((1.0 - prob) * g);
    assert w2 * (m + prob * -g) == w2 * m + w2 * (prob * -g);
    assert w1 * ((1.0 - prob) * g) + w2 * (prob * -g) == score * g;
  }

  /** What the two functions are at a difference and a change of it, for both sides. */
  lemma LogisticAt(prob: real -> real, lp: LogProbability, d: real, g: real)
    requires Logistic(prob, lp)
    ensures lp(d + g) <= lp(d) + Mul(1.0 - prob(d), g) && lp(-(d + g)) <= lp(-d) + Mul(prob(d), -g)
    ensures lp(d + g) >= lp(d) + Mul(1.0 - prob(d), g) - Mul(g, g) / 8.0
    ensures lp(-(d + g)) >= lp(-d) + Mul(prob(d), -g) - Mul(g, g) / 8.0
  {
    assert Mul(-g, -g) == Mul(g, g);
    hide Mul;
    assert (d + g) - d == g && -(d + g) - -d == -g;
    assert prob(-d) == 1.0 - prob(d);
    assert 1.0 - prob(-d) == prob(d);
    assert Tangent(prob, lp, d, d + g) && Tangent(prob, lp, -d, -(d + g));
    assert Curved(prob, lp, d, d + g) && Curved(prob, lp, -d, -(d + g));
  }

  /** One pairing's likelihood lies below its tangent, whose slope is the pairing's score. */
  lemma PairTangent(p: Pairing, logits: Logits, prob: real -> real, lp: LogProbability, g: real)
    requires p.first in logits && p.second in logits && p.firstWins >= 0.0 && p.secondWins >= 0.0 && Logistic(prob, lp)
    ensures var d := logits[p.first] - logits[p.second];
      PairLikelihood(p, d + g, lp) <= PairLikelihood(p, d, lp) + Mul(Score(p, logits, prob), g)
  {
    hide Mul, Logistic;
    var d := logits[p.first] - logits[p.second];
    LogisticAt(prob, lp, d, g);
    MulMonotone(p.firstWins, lp(d + g), lp(d) + Mul(1.0 - prob(d), g));
    MulMonotone(p.secondWins, lp(-(d + g)), lp(-d) + Mul(prob(d), -g));
    ScoreAlgebra(p.firstWins, p.secondWins, prob(d), Score(p, logits, prob), lp(d), lp(-d), g);
  }

  /** And above a parabola with the same slope. */
  lemma PairParabola(p: Pairing, logits: Logits, prob: real -> real, lp: LogProbability, g: real)
    requires p.first in logits && p.second in logits && p.firstWins >= 0.0 && p.secondWins >= 0.0 && Logistic(prob, lp)
    ensures var d := logits[p.first] - logits[p.second];
      PairLikelihood(p, d + g, lp)
        >= PairLikelihood(p, d, lp) + Mul(Score(p, logits, prob), g) - Mul(p.firstWins + p.secondWins, Mul(g, g)) / 8.0
  {
    hide Mul, Logistic;
    var d := logits[p.first] - logits[p.second];
    var drop := Mul(g, g) / 8.0;
    LogisticAt(prob, lp, d, g);
    MulMonotone(p.firstWins, lp(d) + Mul(1.0 - prob(d), g) - drop, lp(d + g));
    MulMonotone(p.secondWins, lp(-d) + Mul(prob(d), -g) - drop, lp(-(d + g)));
    DropAlgebra(p.firstWins, p.secondWins, lp(d) + Mul(1.0 - prob(d), g), lp(-d) + Mul(prob(d), -g), Mul(g, g));
    ScoreAlgebra(p.firstWins, p.secondWins, prob(d), Score(p, logits, prob), lp(d), lp(-d), g);
  }

  lemma DropAlgebra(w1: real, w2: real, l: real, m: real, square: real)
    ensures Mul(w1, l - square / 8.0) + Mul(w2, m - square / 8.0) == Mul(w1, l) + Mul(w2, m) - Mul(w1 + w2, square) / 8.0
  {
    assert w1 * (l - square / 8.0) == w1 * l - w1 * square / 8.0;
    assert w2 * (m - square / 8.0) == w2 * m - w2 * square / 8.0;
    assert (w1 + w2) * square == w1 * square + w2 * square;
  }

  /** The other ratings differ from these by x: each pairing's difference changes by its gap. */
  ghost predicate DifferBy(pairs: seq<Pairing>, logits: Logits, other: Logits, index: Index, x: Row)
    requires Rated(pairs, logits) && Rated(pairs, other) && forall a :: a in index ==> index[a] < |x|
  {
    forall k :: 0 <= k < |pairs| ==>
      other[pairs[k].first] - other[pairs[k].second] == logits[pairs[k].first] - logits[pairs[k].second] + Gap(pairs[k], index, x)
  }

  predicate Games(pairs: seq<Pairing>)
  {
    forall k :: 0 <= k < |pairs| ==> pairs[k].firstWins >= 0.0 && pairs[k].secondWins >= 0.0
  }

  /** The log-likelihood of all other ratings lies below the tangent that the gradient spans. */
  lemma {:induction false} TangentBound(pairs: seq<Pairing>, logits: Logits, other: Logits, index: Index,
                                        prob: real -> real, lp: LogProbability, x: Row)
    requires Rated(pairs, logits) && Rated(pairs, other) && Logistic(prob, lp) && forall a :: a in index ==> index[a] < |x|
    requires Games(pairs)
    requires DifferBy(pairs, logits, other, index, x)
    ensures LogLikelihood(pairs, other, lp) <= LogLikelihood(pairs, logits, lp) + Slope(pairs, logits, index, prob, x)
  {
    hide Logistic, Score, Gap, PairLikelihood, Mul;
    if pairs != [] {
      var k := |pairs| - 1;
      TangentBound(pairs[..k], logits, other, index, prob, lp, x);
      PairTangent(pairs[k], logits, prob, lp, Gap(pairs[k], index, x));
    }
  }

  /** The squared gaps of x, each as often as its pairing has games. */
  function Spread(pairs: seq<Pairing>, index: Index, x: Row): real
    requires forall a :: a in index ==> index[a] < |x|
  {
    if pairs == [] then 0.0
    else
      var p := pairs[|pairs|-1];
      Spread(pairs[..|pairs|-1], index, x) + Mul(p.firstWins + p.secondWins, Mul(Gap(p, index, x), Gap(p, index, x)))
  }

  /** The log-likelihood of all other ratings lies above a parabola with the gradient's slope. */
  lemma {:induction false} ParabolaBound(pairs: seq<Pairing>, logits: Logits, other: Logits, index: Index,
                                         prob: real -> real, lp: LogProbability, x: Row)
    requires Rated(pairs, logits) && Rated(pairs, other) && Logistic(prob, lp) && forall a :: a in index ==> index[a] < |x|
    requires Games(pairs)
    requires DifferBy(pairs, logits, other, index, x)
    ensures LogLikelihood(pairs, other, lp)
      >= LogLikelihood(pairs, logits, lp) + Slope(pairs, logits, index, prob, x) - Spread(pairs, index, x) / 8.0
  {
    hide Logistic, Score, Gap, PairLikelihood, Mul;
    if pairs != [] {
      var k := |pairs| - 1;
      ParabolaBound(pairs[..k], logits, other, index, prob, lp, x);
      PairParabola(pairs[k], logits, prob, lp, Gap(pairs[k], index, x));
    }
  }

  lemma GapTimes(p: Pairing, index: Index, x: Row, s: real)
    requires forall a :: a in index ==> index[a] < |x|
    ensures Gap(p, index, Scaled(s, x)) == Mul(s, Gap(p, index, x))
  {
    MulMinus(s, Value(index, x, p.first), Value(index, x, p.second));
    MulUnits(s);
    assert Value(index, Scaled(s, x), p.first) == Mul(s, Value(index, x, p.first));
    assert Value(index, Scaled(s, x), p.second) == Mul(s, Value(index, x, p.second));
  }

  lemma MulMinus(s: real, x: real, y: real)
    ensures Mul(s, x - y) == Mul(s, x) - Mul(s, y)
  {
  }

  /** A multiple of a step has that multiple of its slope, and the square of it times its spread. */
  lemma {:induction false} ScaledStep(pairs: seq<Pairing>, logits: Logits, index: Index, prob: real -> real, x: Row, s: real)
    requires Rated(pairs, logits) && forall a :: a in index ==> index[a] < |x|
    ensures Slope(pairs, logits, index, prob, Scaled(s, x)) == Mul(s, Slope(pairs, logits, index, prob, x))
    ensures Spread(pairs, index, Scaled(s, x)) == Mul(Mul(s, s), Spread(pairs, index, x))
  {
    hide Score, Gap, Mul;
    if pairs == [] {
      MulUnits(s);
      MulUnits(Mul(s, s));
    } else {
      var k := |pairs| - 1;
      var gap := Gap(pairs[k], index, x);
      ScaledStep(pairs[..k], logits, index, prob, x, s);
      GapTimes(pairs[k], index, x, s);
      ScaledTerms(Score(pairs[k], logits, prob), pairs[k].firstWins + pairs[k].secondWins, gap, s,
                  Slope(pairs[..k], logits, index, prob, x), Spread(pairs[..k], index, x));
    }
  }

  lemma ScaledTerms(score: real, games: real, gap: real, s: real, slope: real, spread: real)
    ensures Mul(s, slope) + Mul(score, Mul(s, gap)) == Mul(s, slope + Mul(score, gap))
    ensures Mul(Mul(s, s), spread) + Mul(games, Mul(Mul(s, gap), Mul(s, gap))) == Mul(Mul(s, s), spread + Mul(games, Mul(gap, gap)))
  {
    assert score * (s * gap) == s * (score * gap);
    assert (s * gap) * (s * gap) == (s * s) * (gap * gap);
    assert games * ((s * s) * (gap * gap)) == (s * s) * (games * (gap * gap));
  }

  lemma {:induction false} SpreadNonNegative(pairs: seq<Pairing>, index: Index, x: Row)
    requires Games(pairs) && forall a :: a in index ==> index[a] < |x|
    ensures Spread(pairs, index, x) >= 0.0
  {
    hide Gap;
    if pairs != [] {
      var p := pairs[|pairs|-1];
      SpreadNonNegative(pairs[..|pairs|-1], index, x);
      var gap := Gap(p, index, x);
      assert gap * gap >= 0.0;
      assert (p.firstWins + p.secondWins) * (gap * gap) >= 0.0;
    }
  }

  /** Both sides of the pairing are likely enough. */
  predicate Contested(p: Pairing, logits: Logits, prob: real -> real, bound: real)
    requires p.first in logits && p.second in logits
  {
    var probability := prob(logits[p.first] - logits[p.second]);
    probability * (1.0 - probability) >= bound
  }

  ghost predicate AllContested(pairs: seq<Pairing>, logits: Logits, prob: real -> real, bound: real)
    requires Rated(pairs, logits)
  {
    forall k :: 0 <= k < |pairs| ==> Contested(pairs[k], logits, prob, bound)
  }

  /** Contested pairings make the energy a part of the spread. */
  lemma {:induction false} ContestedEnergy(pairs: seq<Pairing>, logits: Logits, index: Index, prob: real -> real, x: Row, bound: real)
    requires Rated(pairs, logits) && (forall a :: a in index ==> index[a] < |x|) && Games(pairs)
    requires AllContested(pairs, logits, prob, bound)
    ensures Energy(pairs, logits, index, prob, x) >= Mul(bound, Spread(pairs, index, x))
  {
    hide Weight, Gap, Mul, Contested;
    if pairs == [] {
      MulUnits(bound);
    } else {
      var k := |pairs| - 1;
      ContestedEnergy(pairs[..k], logits, index, prob, x, bound);
      ContestedTerm(pairs[k], logits, prob, Gap(pairs[k], index, x), bound, Spread(pairs[..k], index, x));
    }
  }

  lemma ContestedTerm(p: Pairing, logits: Logits, prob: real -> real, gap: real, bound: real, rest: real)
    requires p.first in logits && p.second in logits && p.firstWins >= 0.0 && p.secondWins >= 0.0
    requires Contested(p, logits, prob, bound)
    ensures var term := Mul(p.firstWins + p.secondWins, Mul(gap, gap));
      Mul(bound, rest) + Mul(Weight(p, logits, prob), Mul(gap, gap)) >= Mul(bound, rest + term)
  {
    var probability := prob(logits[p.first] - logits[p.second]);
    var games, q, square := p.firstWins + p.secondWins, probability * (1.0 - probability), Mul(gap, gap);
    assert square >= 0.0;
    assert Weight(p, logits, prob) == games * q;
    assert games * square >= 0.0;
    assert (q - bound) * (games * square) >= 0.0;
    assert (games * q) * square == q * (games * square);
  }

  function SumAbs(x: Row): real
  {
    if x == [] then 0.0 else SumAbs(x[..|x|-1]) + Abs(x[|x|-1])
  }

  lemma {:induction false} SmallProduct(g: Row, x: Row, bound: real)
    requires |g| == |x| && bound >= 0.0 && forall i :: 0 <= i < |g| ==> Abs(g[i]) <= bound
    ensures Dot(g, x) <= Mul(bound, SumAbs(x))
  {
    if g == [] {
      MulUnits(bound);
    } else {
      var k := |g| - 1;
      SmallProduct(g[..k], x[..k], bound);
      EntryBound(g[k], x[k], bound, SumAbs(x[..k]));
    }
  }

  lemma EntryBound(g: real, x: real, bound: real, rest: real)
    requires Abs(g) <= bound
    ensures Mul(bound, rest) + g * x <= Mul(bound, rest + Abs(x))
  {
    var y := Abs(x);
    assert g * x <= bound * y by {
      if x >= 0.0 { assert (bound - g) * x >= 0.0; } else { assert (bound + g) * -x >= 0.0; }
    }
    assert bound * (rest + y) == bound * rest + bound * y;
  }

  /**
   Where every entry of the gradient is small, no other ratings with the same anchor have a
   log-likelihood that is higher by more than that bound times their total distance.
   */
  lemma SmallGradientIsNearlyOptimal(pairs: seq<Pairing>, logits: Logits, other: Logits, index: Index,
                                     prob: real -> real, lp: LogProbability, x: Row, bound: real)
    requires Rated(pairs, logits) && Rated(pairs, other) && Logistic(prob, lp) && Numbers(index, |x|) && bound >= 0.0
    requires Games(pairs)
    requires DifferBy(pairs, logits, other, index, x)
    requires forall i :: 0 <= i < |x| ==> Abs(Gradient(pairs, logits, index, prob, |x|)[i]) <= bound
    ensures LogLikelihood(pairs, other, lp) <= LogLikelihood(pairs, logits, lp) + Mul(bound, SumAbs(x))
  {
    hide Logistic, Dot, Gradient, Mul, Abs, SumAbs, LogLikelihood, Slope, DifferBy;
    TangentBound(pairs, logits, other, index, prob, lp, x);
    GradientForm(pairs, logits, index, prob, x);
    SmallProduct(Gradient(pairs, logits, index, prob, |x|), x, bound);
  }

  // The information is the gradient's rate of change.

  /** The games times the squared gap of x times the gap of y. */
  function Cubic(pairs: seq<Pairing>, index: Index, x: Row, y: Row): real
    requires |x| == |y| && forall a :: a in index ==> index[a] < |x|
  {
    if pairs == [] then 0.0
    else
      var p := pairs[|pairs|-1];
      Cubic(pairs[..|pairs|-1], index, x, y)
        + Mul(p.firstWins + p.secondWins, Mul(Mul(Gap(p, index, x), Gap(p, index, x)), Abs(Gap(p, index, y))))
  }

  /** One pairing's score falls at the rate of its weight. */
  lemma ScoreFalls(p: Pairing, logits: Logits, other: Logits, prob: real -> real, lp: LogProbability, g: real, h: real)
    requires p.first in logits && p.second in logits && p.first in other && p.second in other
    requires p.firstWins >= 0.0 && p.secondWins >= 0.0 && Logistic(prob, lp)
    requires other[p.first] - other[p.second] == logits[p.first] - logits[p.second] + g
    ensures var rest := Mul(p.firstWins + p.secondWins, Mul(Mul(g, g), Abs(h)));
      -rest / 20.0 <= Mul(Score(p, other, prob), h) - Mul(Score(p, logits, prob), h) + Mul(Weight(p, logits, prob), Mul(g, h)) <= rest / 20.0
  {
    hide Mul, Logistic, Smooth, Abs;
    var d, games := logits[p.first] - logits[p.second], p.firstWins + p.secondWins;
    var rate, change := Mul(prob(d), 1.0 - prob(d)), prob(d + g) - prob(d);
    SmoothAt(prob, lp, d, g);
    ScoreChange(p.firstWins, games, prob(d), prob(d + g), Score(p, logits, prob), Score(p, other, prob), h);
    WeightChange(games, prob(d), Weight(p, logits, prob), g, h);
    ProductMinus(games, change, Mul(rate, g), h);
    WithinProduct(games, change - Mul(rate, g), Mul(g, g), h);
  }

  lemma SmoothAt(prob: real -> real, lp: LogProbability, d: real, g: real)
    requires Logistic(prob, lp)
    ensures var linear := prob(d) + Mul(Mul(prob(d), 1.0 - prob(d)), g);
      linear - Mul(g, g) / 20.0 <= prob(d + g) <= linear + Mul(g, g) / 20.0
  {
    assert (d + g) - d == g;
    hide Mul;
    assert Smooth(prob, d, d + g);
  }

  lemma ScoreChange(won: real, games: real, p: real, q: real, before: real, after: real, h: real)
    requires before == won - games * p && after == won - games * q
    ensures Mul(after, h) - Mul(before, h) == -Mul(games, Mul(q - p, h))
  {
    assert (won - games * q) * h - (won - games * p) * h == -(games * ((q - p) * h));
  }

  lemma WeightChange(games: real, p: real, weight: real, g: real, h: real)
    requires weight == games * p * (1.0 - p)
    ensures Mul(weight, Mul(g, h)) == Mul(games, Mul(Mul(Mul(p, 1.0 - p), g), h))
  {
    var rate := p * (1.0 - p);
    assert weight == games * rate;
    assert games * rate * (g * h) == games * (rate * g * h);
  }

  lemma ProductMinus(games: real, x: real, y: real, h: real)
    ensures Mul(games, Mul(x - y, h)) == Mul(games, Mul(x, h)) - Mul(games, Mul(y, h))
  {
    assert (x - y) * h == x * h - y * h;
  }

  lemma WithinProduct(games: real, off: real, square: real, h: real)
    requires games >= 0.0 && -square / 20.0 <= off <= square / 20.0
    ensures -Mul(games, Mul(square, Abs(h))) / 20.0 <= Mul(games, Mul(off, h)) <= Mul(games, Mul(square, Abs(h))) / 20.0
  {
    var bound := square / 20.0 * Abs(h);
    assert -bound <= off * h <= bound by {
      if h >= 0.0 { assert (square / 20.0 - off) * h >= 0.0 && (square / 20.0 + off) * h >= 0.0; }
      else { assert (square / 20.0 - off) * -h >= 0.0 && (square / 20.0 + off) * -h >= 0.0; }
    }
    assert games * (bound - off * h) >= 0.0 && games * (bound + off * h) >= 0.0;
  }

  /**
   The information matrix is the rate at which the gradient falls: between any two ratings
   the slopes along y differ by its product of the displacement and y, up to a cubic term.
   */
  lemma {:induction false} InformationIsRate(pairs: seq<Pairing>, logits: Logits, other: Logits, index: Index,
                                             prob: real -> real, lp: LogProbability, x: Row, y: Row)
    requires Rated(pairs, logits) && Rated(pairs, other) && Logistic(prob, lp) && Games(pairs)
    requires |x| == |y| && (forall a :: a in index ==> index[a] < |x|) && DifferBy(pairs, logits, other, index, x)
    ensures var rest := Cubic(pairs, index, x, y);
      -rest / 20.0
        <= Slope(pairs, other, index, prob, y) - Slope(pairs, logits, index, prob, y) + Cross(pairs, logits, index, prob, x, y)
        <= rest / 20.0
  {
    hide Logistic, Score, Weight, Gap, Mul, Abs;
    if pairs != [] {
      var k := |pairs| - 1;
      InformationIsRate(pairs[..k], logits, other, index, prob, lp, x, y);
      ScoreFalls(pairs[k], logits, other, prob, lp, Gap(pairs[k], index, x), Gap(pairs[k], index, y));
    }
  }

  // Newton steps.

  /** The gain of a multiple of a Newton step, from below. */
  lemma NewtonGain(pairs: seq<Pairing>, logits: Logits, other: Logits, index: Index,
                   prob: real -> real, lp: LogProbability, delta: Row, s: real)
    requires Rated(pairs, logits) && Rated(pairs, other) && Logistic(prob, lp) && Numbers(index, |delta|) && Games(pairs)
    requires Solves(Information(pairs, logits, index, prob, |delta|), Gradient(pairs, logits, index, prob, |delta|), delta)
    requires DifferBy(pairs, logits, other, index, Scaled(s, delta))
    ensures LogLikelihood(pairs, other, lp) >= LogLikelihood(pairs, logits, lp)
      + Mul(s, Energy(pairs, logits, index, prob, delta)) - Mul(Mul(s, s), Spread(pairs, index, delta)) / 8.0
  {
    hide Logistic, Games, Solves, Information, Gradient, DifferBy, Mul, Spread, Energy, Slope, LogLikelihood;
    ParabolaBound(pairs, logits, other, index, prob, lp, Scaled(s, delta));
    ScaledStep(pairs, logits, index, prob, delta, s);
    NewtonAscends(pairs, logits, index, prob, delta);
  }

  /** A multiple of a Newton step loses nothing when every pairing is contested enough. */
  lemma ContestedGain(pairs: seq<Pairing>, logits: Logits, other: Logits, index: Index,
                      prob: real -> real, lp: LogProbability, delta: Row, s: real)
    requires Rated(pairs, logits) && Rated(pairs, other) && Logistic(prob, lp) && Numbers(index, |delta|) && Games(pairs)
    requires Solves(Information(pairs, logits, index, prob, |delta|), Gradient(pairs, logits, index, prob, |delta|), delta)
    requires DifferBy(pairs, logits, other, index, Scaled(s, delta))
    requires s >= 0.0 && AllContested(pairs, logits, prob, s / 8.0)
    ensures LogLikelihood(pairs, other, lp) >= LogLikelihood(pairs, logits, lp)
  {
    hide Logistic, Games, Solves, Information, Gradient, DifferBy, Mul, Spread, Energy, LogLikelihood, AllContested;
    NewtonGain(pairs, logits, other, index, prob, lp, delta, s);
    ContestedEnergy(pairs, logits, index, prob, delta, s / 8.0);
    SmallerScale(s, Energy(pairs, logits, index, prob, delta), Spread(pairs, index, delta));
  }

  lemma SmallerScale(s: real, energy: real, spread: real)
    requires s >= 0.0 && energy >= Mul(s / 8.0, spread)
    ensures Mul(s, energy) >= Mul(Mul(s, s), spread) / 8.0
  {
    assert s * (energy - s / 8.0 * spread) >= 0.0;
    assert s * (s / 8.0 * spread) == s * s * spread / 8.0;
  }

  lemma StrictGain(s: real, energy: real, spread: real)
    requires s > 0.0 && Mul(s, spread) < 8.0 * energy
    ensures Mul(s, energy) > Mul(Mul(s, s), spread) / 8.0
  {
    assert s * (energy - s * spread / 8.0) > 0.0;
    assert s * (s * spread / 8.0) == s * s * spread / 8.0;
  }

  /** The gaps of x without their signs, each as often as its pairing has games. */
  function Distance(pairs: seq<Pairing>, index: Index, x: Row): real
    requires forall a :: a in index ==> index[a] < |x|
  {
    if pairs == [] then 0.0
    else
      var p := pairs[|pairs|-1];
      Distance(pairs[..|pairs|-1], index, x) + Mul(p.firstWins + p.secondWins, Abs(Gap(p, index, x)))
  }

  lemma CrossTerm(p: Pairing, logits: Logits, prob: real -> real, s: real, gap: real, bound: real, other: real)
    requires p.first in logits && p.second in logits && p.firstWins >= 0.0 && p.secondWins >= 0.0 && IsProbability(prob)
    requires Abs(Mul(s, gap)) <= 2.0 * bound
    ensures Mul(s, Mul(Weight(p, logits, prob), Mul(gap, other))) <= Mul(bound / 2.0, Mul(p.firstWins + p.secondWins, Abs(other)))
  {
    var probability := prob(logits[p.first] - logits[p.second]);
    var games, q := p.firstWins + p.secondWins, probability * (1.0 - probability);
    assert 0.0 < probability < 1.0;
    assert 0.0 <= q <= 1.0 / 4.0 by {
      PositiveProduct(probability, 1.0 - probability);
      assert q == 1.0 / 4.0 - (probability - 1.0 / 2.0) * (probability - 1.0 / 2.0);
    }
    assert Weight(p, logits, prob) == games * q;
    QuarterBound(games, q, s * gap, other, bound);
    assert s * (games * q * (gap * other)) == games * q * (s * gap * other);
  }

  lemma QuarterBound(games: real, q: real, step: real, other: real, bound: real)
    requires games >= 0.0 && 0.0 <= q <= 1.0 / 4.0 && Abs(step) <= 2.0 * bound
    ensures games * q * (step * other) <= bound / 2.0 * (games * Abs(other))
  {
    var size := Abs(other);
    assert step * other <= 2.0 * bound * size by {
      if other >= 0.0 { assert (2.0 * bound - step) * other >= 0.0; } else { assert (2.0 * bound + step) * -other >= 0.0; }
    }
    var weight, top := games * q, 2.0 * bound * size;
    assert weight >= 0.0 && top >= 0.0;
    assert weight * (step * other) <= weight * top by { assert weight * (top - step * other) >= 0.0; }
    assert weight <= games / 4.0 by { assert games * (1.0 / 4.0 - q) >= 0.0; }
    assert weight * top <= games / 4.0 * top by { assert (games / 4.0 - weight) * top >= 0.0; }
    assert games / 4.0 * top == bound / 2.0 * (games * size);
  }

  ghost predicate SmallGaps(pairs: seq<Pairing>, index: Index, x: Row, s: real, bound: real)
    requires forall a :: a in index ==> index[a] < |x|
  {
    forall k :: 0 <= k < |pairs| ==> Abs(Mul(s, Gap(pairs[k], index, x))) <= 2.0 * bound
  }

  lemma {:induction false} CrossBound(pairs: seq<Pairing>, logits: Logits, index: Index, prob: real -> real,
                                      delta: Row, x: Row, s: real, bound: real)
    requires Rated(pairs, logits) && |delta| == |x| && (forall a :: a in index ==> index[a] < |x|)
    requires Games(pairs) && IsProbability(prob) && SmallGaps(pairs, index, delta, s, bound)
    ensures Mul(s, Cross(pairs, logits, index, prob, delta, x)) <= Mul(bound / 2.0, Distance(pairs, index, x))
  {
    hide Weight, Gap, Mul, Abs, IsProbability;
    if pairs == [] {
      MulUnits(s);
      MulUnits(bound / 2.0);
    } else {
      var k := |pairs| - 1;
      var p := pairs[k];
      CrossBound(pairs[..k], logits, index, prob, delta, x, s, bound);
      CrossTerm(p, logits, prob, s, Gap(p, index, delta), bound, Gap(p, index, x));
      MulPlus(s, Cross(pairs[..k], logits, index, prob, delta, x), Mul(Weight(p, logits, prob), Mul(Gap(p, index, delta), Gap(p, index, x))));
      MulPlus(bound / 2.0, Distance(pairs[..k], index, x), Mul(p.firstWins + p.secondWins, Abs(Gap(p, index, x))));
    }
  }

  lemma MulPlus(s: real, x: real, y: real)
    ensures Mul(s, x + y) == Mul(s, x) + Mul(s, y)
  {
  }

  /**
   Where a multiple of the Newton step is small, no other ratings have a much higher
   log-likelihood, in proportion to the size of the step before it was scaled.
   */
  lemma SmallStepIsNearlyOptimal(pairs: seq<Pairing>, logits: Logits, other: Logits, index: Index,
                                 prob: real -> real, lp: LogProbability, delta: Row, x: Row, s: real, bound: real)
    requires Rated(pairs, logits) && Rated(pairs, other) && Logistic(prob, lp) && IsProbability(prob)
    requires Numbers(index, |x|) && |delta| == |x| && Games(pairs) && s >= 0.0
    requires Solves(Information(pairs, logits, index, prob, |delta|), Gradient(pairs, logits, index, prob, |delta|), delta)
    requires DifferBy(pairs, logits, other, index, x) && SmallGaps(pairs, index, delta, s, bound)
    ensures Mul(s, LogLikelihood(pairs, other, lp) - LogLikelihood(pairs, logits, lp)) <= Mul(bound / 2.0, Distance(pairs, index, x))
  {
    hide Logistic, IsProbability, Games, Information, Gradient, DifferBy, SmallGaps, Mul, Dot, Slope, Cross, Distance, LogLikelihood;
    TangentBound(pairs, logits, other, index, prob, lp, x);
    GradientForm(pairs, logits, index, prob, x);
    BilinearForm(pairs, logits, index, prob, delta, x);
    assert Apply(Information(pairs, logits, index, prob, |delta|), delta) == Gradient(pairs, logits, index, prob, |delta|);
    CrossBound(pairs, logits, index, prob, delta, x, s, bound);
    MulMonotone(s, LogLikelihood(pairs, other, lp) - LogLikelihood(pairs, logits, lp), Slope(pairs, logits, index, prob, x));
  }

  // The code's evaluation.

  /** The stable form: the normalizer of a nonnegative difference d is log(1 + exp(-d)). */
  function FromNormalizer(normalizer: real -> real): LogProbability
  {
    (d: real) => if d >= 0.0 then -normalizer(d) else d - normalizer(-d)
  }

  /** The loop shares one normalizer between the two sides of a pairing. */
  method Evaluate(pairs: seq<Pairing>, logits: Logits, normalizer: real -> real) returns (value: real)
    requires Rated(pairs, logits)
    ensures value == LogLikelihood(pairs, logits, FromNormalizer(normalizer))
  {
    hide PairLikelihood, FromNormalizer;
    value := 0.0;
    var lp := FromNormalizer(normalizer);
    assert pairs[..0] == [];
    for k := 0 to |pairs|
      invariant value == LogLikelihood(pairs[..k], logits, lp)
    {
      assert pairs[..k+1][..k] == pairs[..k];
      var difference := logits[pairs[k].first] - logits[pairs[k].second];
      var logProbability, logComplement;
      if difference >= 0.0 {
        var shared := normalizer(difference);
        logProbability, logComplement := -shared, -difference - shared;
      } else {
        var shared := normalizer(-difference);
        logProbability, logComplement := difference - shared, -shared;
      }
      BothSides(pairs[k], normalizer, difference, logProbability, logComplement);
      value := value + (pairs[k].firstWins * logProbability + pairs[k].secondWins * logComplement);
    }
    assert pairs[..|pairs|] == pairs;
  }

  lemma BothSides(p: Pairing, normalizer: real -> real, d: real, logProbability: real, logComplement: real)
    requires d >= 0.0 ==> logProbability == -normalizer(d) && logComplement == -d - normalizer(d)
    requires d < 0.0 ==> logProbability == d - normalizer(-d) && logComplement == -normalizer(-d)
    ensures p.firstWins * logProbability + p.secondWins * logComplement == PairLikelihood(p, d, FromNormalizer(normalizer))
  {
    if d == 0.0 { assert -d == d; }
    assert logProbability == FromNormalizer(normalizer)(d) && logComplement == FromNormalizer(normalizer)(-d);
  }

  /** The code's probability, which never takes the exponential of a positive number. */
  function FromExponential(exp: real -> real): real -> real
    requires Exponential(exp)
  {
    (d: real) => Branches(exp, d)
  }

  function Branches(exp: real -> real, d: real): real
    requires Exponential(exp)
  {
    Opposite(exp, d);
    Opposite(exp, -d);
    if d >= 0.0 then 1.0 / (1.0 + exp(-d)) else exp(d) / (1.0 + exp(d))
  }

  /** Both of its branches are 1 / (1 + exp(-d)), and the two sides' probabilities add up to one. */
  lemma ProbabilityIsLogistic(exp: real -> real, d: real)
    requires Exponential(exp)
    ensures FromExponential(exp)(d) * (1.0 + exp(-d)) == 1.0 && exp(-d) > 0.0
    ensures 0.0 < FromExponential(exp)(d) < 1.0 && FromExponential(exp)(-d) == 1.0 - FromExponential(exp)(d)
  {
    Opposite(exp, d);
    Opposite(exp, -d);
    assert -(-d) == d;
    var a, b := exp(d), exp(-d);
    Fractions(a, b);
    Fractions(b, a);
    hide Exponential;
    assert d >= 0.0 ==> Branches(exp, d) == 1.0 / (1.0 + b);
    assert d < 0.0 ==> Branches(exp, d) == a / (1.0 + a);
  }

  lemma Fractions(a: real, b: real)
    requires a > 0.0 && b > 0.0 && Mul(a, b) == 1.0
    ensures a / (1.0 + a) == 1.0 / (1.0 + b) && 0.0 < 1.0 / (1.0 + b) < 1.0
    ensures 1.0 / (1.0 + b) * (1.0 + b) == 1.0
    ensures 1.0 / (1.0 + b) + b / (1.0 + b) == 1.0
  {
    var x, y := a / (1.0 + a), 1.0 / (1.0 + b);
    assert x * (1.0 + a) == a && y * (1.0 + b) == 1.0;
    assert a * (1.0 + b) == 1.0 + a;
    assert x * (1.0 + a) * (1.0 + b) == 1.0 + a;
    assert (x * (1.0 + b) - 1.0) * (1.0 + a) == 0.0;
    NonzeroFactor(1.0 + a, x * (1.0 + b) - 1.0);
    assert (x - y) * (1.0 + b) == 0.0;
    NonzeroFactor(1.0 + b, x - y);
  }

  /** With log(1 + exp(-t)) as its normalizer, the code's log-probability is the logarithm of its probability. */
  lemma NormalizedIsLogProbability(exp: real -> real, normalizer: real -> real, d: real)
    requires Exponential(exp) && forall t :: t >= 0.0 ==> exp(normalizer(t)) == 1.0 + exp(-t)
    ensures exp(FromNormalizer(normalizer)(d)) == FromExponential(exp)(d)
  {
    hide *;
    var t := if d >= 0.0 then d else -d;
    var value, a, b, n := exp(FromNormalizer(normalizer)(d)), exp(d), exp(-d), normalizer(t);
    ProbabilityIsLogistic(exp, d);
    Opposite(exp, d);
    Opposite(exp, n);
    ProductOfPowers(exp, d, -n);
    LogBranches(normalizer, d);
    assert exp(n) == 1.0 + exp(-t);
    ValueOfLog(d >= 0.0, value, a, b, exp(n), exp(-n));
    SameFactor(value, FromExponential(exp)(d), 1.0 + b);
  }

  lemma LogBranches(normalizer: real -> real, d: real)
    ensures FromNormalizer(normalizer)(d) == if d >= 0.0 then -normalizer(d) else d + -normalizer(-d)
    ensures -(-d) == d
  {
  }

  lemma ValueOfLog(above: bool, value: real, a: real, b: real, power: real, inverse: real)
    requires Mul(a, b) == 1.0 && Mul(power, inverse) == 1.0 && b > 0.0
    requires if above then power == 1.0 + b && value == inverse else power == 1.0 + a && value == Mul(a, inverse)
    ensures value * (1.0 + b) == 1.0
  {
    if !above {
      assert a * inverse * (1.0 + b) == inverse * a + inverse * (a * b);
      assert inverse * power == inverse + inverse * a;
    }
  }

  lemma SameFactor(x: real, y: real, z: real)
    requires x * z == y * z && z > 0.0
    ensures x == y
  {
    assert (x - y) * z == 0.0;
    NonzeroFactor(z, x - y);
  }
}
