/** The test at every prefix of a severity cycle. */
module PrefixTest {
  // It generalises the test at complete cycles, which is here as well.

  import opened RealVectors
  import opened Exponentials
  import opened Results
  import opened NullExpectation
  import opened Evidence
  import opened WeightedTest

  // How a prefix samples the severities.

  /** Samples of severity s among the first n pairs of a cycle of the given length. */
  function Samples(n: nat, length: nat, s: nat): nat
    requires length > 0
  {
    n / length + if s < n % length then 1 else 0
  }

  function Counts(n: nat, length: nat): (counts: seq<real>)
    requires length > 0
    ensures |counts| == length
    ensures forall s :: 0 <= s < length ==> counts[s] == Samples(n, length, s) as real
  {
    seq(length, s requires 0 <= s < length => Samples(n, length, s) as real)
  }

  function CycleWeights(length: nat): (weights: seq<real>)
    requires length > 0
    ensures |weights| == length && forall s :: 0 <= s < length ==> weights[s] == 1.0 / length as real > 0.0
  {
    Constant(length, 1.0 / length as real)
  }

  /** Expected score of the first n pairs when severity s has mean means[s]. */
  function PrefixExpectation(means: seq<real>, n: nat): real
    requires |means| > 0
  {
    if n == 0 then 0.0 else PrefixExpectation(means, n - 1) + means[(n - 1) % |means|]
  }

  lemma NextSample(n: nat, length: nat)
    requires length > 0
    ensures forall s :: 0 <= s < length ==> Samples(n + 1, length, s) == Samples(n, length, s) + if s == n % length then 1 else 0
  {
    var q, r := n / length, n % length;
    assert n + 1 == q * length + (r + 1);
    if r + 1 == length {
      assert n + 1 == (q + 1) * length;
      DivideOut(q + 1, 0, length);
    } else {
      DivideOut(q, r + 1, length);
    }
  }

  lemma DivideOut(q: nat, r: nat, length: nat)
    requires r < length
    ensures (q * length + r) / length == q && (q * length + r) % length == r
  {
    var x := q * length + r;
    var q', r' := x / length, x % length;
    assert x == q' * length + r';
    assert (q' - q) * length == r - r';
    SmallMultiple(q' - q, length);
  }

  lemma SmallMultiple(k: int, length: nat)
    requires 0 - length < k * length < length
    ensures k == 0
  {
    MultipleAtLeast(k, length);
  }

  lemma MultipleAtLeast(k: int, length: nat)
    ensures k >= 1 ==> k * length >= length
    ensures k <= -1 ==> k * length <= 0 - length
  {
    if k >= 1 { assert k * length == (k - 1) * length + length; }
    if k <= -1 { assert k * length == (k + 1) * length - length; }
  }

  /** Round-robin sampling weighs each severity mean by its sample count. */
  lemma {:induction false} PrefixExpectationIsDot(means: seq<real>, n: nat)
    requires |means| > 0
    ensures PrefixExpectation(means, n) == Dot(Counts(n, |means|), means)
  {
    hide Dot;
    var length := |means|;
    if n == 0 {
      DivideOut(0, 0, length);
      DotSymmetric(Counts(0, length), means);
      DotZero(means, Counts(0, length));
    } else {
      PrefixExpectationIsDot(means, n - 1);
      NextSample(n - 1, length);
      var before, s := Counts(n - 1, length), (n - 1) % length;
      assert Counts(n, length) == before[s := before[s] + 1.0];
      DotSymmetric(before, means);
      DotUpdate(means, before, s, before[s] + 1.0);
      DotSymmetric(Counts(n, length), means);
    }
  }

  // The closed form.

  /** The code's bound on the expected score of n pairs when the severities average m. */
  function PrefixBound(n: nat, length: nat, m: real): real
    requires length > 0
  {
    (n / length) as real * length as real * m + Min((n % length) as real, length as real * m)
  }

  function TwoLevel(length: nat, r: nat, x: real, y: real): (v: seq<real>)
    ensures |v| == length && forall s :: 0 <= s < length ==> v[s] == if s < r then x else y
  {
    seq(length, s requires 0 <= s < length => if s < r then x else y)
  }

  /** Products of two-level vectors with a common break. */
  lemma {:induction false} DotTwoLevel(length: nat, r: nat, a: real, b: real, x: real, y: real)
    requires r <= length
    ensures Dot(TwoLevel(length, r, a, b), TwoLevel(length, r, x, y)) == Times(r, Mul(a, x)) + Times(length - r, Mul(b, y))
  {
    hide Dot;
    if length == 0 {
      DotZero([], []);
    } else if r < length {
      assert TwoLevel(length, r, a, b) == TwoLevel(length - 1, r, a, b) + [b];
      assert TwoLevel(length, r, x, y) == TwoLevel(length - 1, r, x, y) + [y];
      DotAppend(TwoLevel(length - 1, r, a, b), TwoLevel(length - 1, r, x, y), b, y);
      DotTwoLevel(length - 1, r, a, b, x, y);
    } else {
      assert TwoLevel(length, r, a, b) == TwoLevel(r - 1, r - 1, a, b) + [a];
      assert TwoLevel(length, r, x, y) == TwoLevel(r - 1, r - 1, x, y) + [x];
      DotAppend(TwoLevel(r - 1, r - 1, a, b), TwoLevel(r - 1, r - 1, x, y), a, x);
      DotTwoLevel(r - 1, r - 1, a, b, x, y);
    }
  }

  function Times(n: nat, x: real): real
  {
    if n == 0 then 0.0 else Times(n - 1, x) + x
  }

  lemma {:induction false} TimesIsProduct(n: nat, x: real)
    ensures Times(n, x) == n as real * x
  {
    if n > 0 {
      TimesIsProduct(n - 1, x);
      assert n as real * x == (n - 1) as real * x + x;
    }
  }

  /** A program with two kinds of strata and one price per weight is solved by inspection. */
  lemma TwoLevelCertificate(length: nat, r: nat, w: real, high: real, low: real, m: real,
                            x: real, y: real, theta: real, price: real)
    requires r <= length && theta >= 0.0 && Mul(theta, w) == price
    requires 0.0 <= x <= 1.0 && 0.0 <= y <= 1.0
    requires Times(r, Mul(w, x)) + Times(length - r, Mul(w, y)) == m
    requires r > 0 ==> (high > price ==> x == 1.0) && (high < price ==> x == 0.0)
    requires (low > price ==> y == 1.0) && (low < price ==> y == 0.0)
    ensures Certificate(TwoLevel(length, r, w, w), TwoLevel(length, r, high, low), m, TwoLevel(length, r, x, y), theta)
    ensures Dot(TwoLevel(length, r, high, low), TwoLevel(length, r, x, y)) == Times(r, Mul(high, x)) + Times(length - r, Mul(low, y))
  {
    hide Dot, Times, Mul;
    DotTwoLevel(length, r, w, w, x, y);
    DotTwoLevel(length, r, high, low, x, y);
  }

  /** k strata of mean x hold total; at a per unit of mean they earn a * total. */
  lemma Spread(k: nat, x: real, total: real, a: real)
    requires Mul(k as real, x) == total
    ensures Times(k, Mul(a, x)) == Mul(a, total)
  {
    hide Times;
    TimesIsProduct(k, Mul(a, x));
    assert k as real * (a * x) == a * (k as real * x);
  }

  lemma SpreadFull(k: nat, a: real)
    ensures Times(k, Mul(a, 1.0)) == Mul(a, k as real)
    ensures Times(k, Mul(a, 0.0)) == 0.0
  {
    hide Times;
    TimesIsProduct(k, Mul(a, 1.0));
    TimesIsProduct(k, Mul(a, 0.0));
  }

  lemma Fraction(part: real, whole: real)
    requires whole > 0.0 && 0.0 <= part <= whole
    ensures 0.0 <= part / whole <= 1.0 && Mul(whole, part / whole) == part
  {
    ComparePrice(part / whole, 1.0, whole);
    ComparePrice(part / whole, 0.0, whole);
  }

  lemma Split(a: real, x: real, y: real)
    ensures Mul(a, x) + Mul(a, y) == Mul(a, x + y)
    ensures Mul(a + 1.0, x) == Mul(a, x) + x
  {
  }

  /** The facts about one cycle that both cases below use. */
  lemma CycleFacts(n: nat, length: nat, m: real)
    requires length > 0 && 0.0 <= m <= 1.0
    ensures var w, q, b := 1.0 / length as real, (n / length) as real, Mul(length as real, m);
      && Mul(w, b) == m && 0.0 <= b <= length as real
      && Mul(Mul(q, length as real), w) == q && Mul(Mul(q + 1.0, length as real), w) == q + 1.0
      && Mul(q, length as real) >= 0.0 && Mul(q + 1.0, length as real) >= 0.0
      && PrefixBound(n, length, m) == Mul(q, b) + Min((n % length) as real, b)
  {
    WeightOfBudget(length as real, 1.0 / length as real, m, (n / length) as real);
    WeightOfBudget(length as real, 1.0 / length as real, m, (n / length) as real + 1.0);
  }

  lemma WeightOfBudget(length: real, w: real, m: real, q: real)
    requires length * w == 1.0 && length > 0.0 && q >= 0.0 && 0.0 <= m <= 1.0
    ensures Mul(w, Mul(length, m)) == m && 0.0 <= Mul(length, m) <= length
    ensures Mul(Mul(q, length), w) == q && Mul(q, length) >= 0.0
    ensures q * length * m == Mul(q, Mul(length, m))
  {
    assert w * (length * m) == (length * w) * m;
    assert q * length * w == q * (length * w);
    ComparePrice(m, 1.0, length);
  }

  lemma CycleShape(n: nat, length: nat)
    requires length > 0
    ensures CycleWeights(length) == TwoLevel(length, n % length, 1.0 / length as real, 1.0 / length as real)
    ensures Counts(n, length) == TwoLevel(length, n % length, (n / length) as real + 1.0, (n / length) as real)
  {
  }

  /** The extra samples can absorb the whole budget; nothing else expects a score. */
  lemma BoundWithinExtra(n: nat, length: nat, m: real) returns (means: seq<real>, theta: real)
    requires length > 0 && 0.0 <= m <= 1.0 && Mul(length as real, m) <= (n % length) as real
    ensures Certificate(CycleWeights(length), Counts(n, length), m, means, theta)
    ensures Dot(Counts(n, length), means) == PrefixBound(n, length, m)
  {
    var r, w, q, b := n % length, 1.0 / length as real, (n / length) as real, Mul(length as real, m);
    CycleFacts(n, length, m);
    CycleShape(n, length);
    assert Mul(0.0, 0.0) == 0.0;
    hide Dot, Counts, CycleWeights, Certificate, PrefixBound, Times, TwoLevel, Mul;
    var x := if r == 0 then 0.0 else b / r as real;
    if r > 0 { Fraction(b, r as real); }
    Spread(r, x, b, w);
    Spread(r, x, b, q + 1.0);
    SpreadFull(length - r, w);
    SpreadFull(length - r, q);
    Split(q, b, b);
    means, theta := TwoLevel(length, r, x, 0.0), Mul(q + 1.0, length as real);
    TwoLevelCertificate(length, r, w, q + 1.0, q, m, x, 0.0, theta, q + 1.0);
  }

  /** The extra samples are full; the rest of the budget is spread over the others. */
  lemma BoundBeyondExtra(n: nat, length: nat, m: real) returns (means: seq<real>, theta: real)
    requires length > 0 && 0.0 <= m <= 1.0 && Mul(length as real, m) > (n % length) as real
    ensures Certificate(CycleWeights(length), Counts(n, length), m, means, theta)
    ensures Dot(Counts(n, length), means) == PrefixBound(n, length, m)
  {
    var r, w, q, b := n % length, 1.0 / length as real, (n / length) as real, Mul(length as real, m);
    CycleFacts(n, length, m);
    CycleShape(n, length);
    hide Dot, Counts, CycleWeights, Certificate, PrefixBound, Times, TwoLevel, Mul;
    var rest := b - r as real;
    var y := rest / (length - r) as real;
    Fraction(rest, (length - r) as real);
    SpreadFull(r, w);
    SpreadFull(r, q + 1.0);
    Spread(length - r, y, rest, w);
    Spread(length - r, y, rest, q);
    Split(w, r as real, rest);
    Split(q, r as real, rest);
    means, theta := TwoLevel(length, r, 1.0, y), Mul(q, length as real);
    TwoLevelCertificate(length, r, w, q + 1.0, q, m, 1.0, y, theta, q);
  }

  lemma CountsAreWellFormed(n: nat, length: nat)
    requires length > 0
    ensures WellFormed(CycleWeights(length), Counts(n, length))
    ensures Sum(CycleWeights(length)) == 1.0
    ensures Sum(Counts(n, length)) == n as real
  {
    hide Sum, Dot;
    var w, ones := 1.0 / length as real, Constant(length, 1.0);
    DotConstant(CycleWeights(length), 1.0);
    assert CycleWeights(length) == TwoLevel(length, 0, 0.0, w) && ones == TwoLevel(length, 0, 0.0, 1.0);
    DotTwoLevel(length, 0, 0.0, w, 0.0, 1.0);
    TimesIsProduct(length, w);
    DotConstant(Counts(n, length), 1.0);
    PrefixExpectationIsDot(ones, n);
    OnesExpectCount(length, n);
  }

  lemma {:induction false} OnesExpectCount(length: nat, n: nat)
    requires length > 0
    ensures PrefixExpectation(Constant(length, 1.0), n) == n as real
  {
    if n > 0 { OnesExpectCount(length, n - 1); }
  }

  /** The closed form is the value of the linear program over the severity means. */
  lemma PrefixBoundIsMaximum(n: nat, length: nat, m: real)
    requires length > 0 && 0.0 <= m <= 1.0
    ensures WellFormed(CycleWeights(length), Counts(n, length))
    ensures IsMaximum(CycleWeights(length), Counts(n, length), m, PrefixBound(n, length, m))
    ensures NullValue(CycleWeights(length), Counts(n, length), m) == PrefixBound(n, length, m)
  {
    hide Dot, NullValue, PrefixBound, Certificate;
    var means, theta;
    if Mul(length as real, m) <= (n % length) as real {
      means, theta := BoundWithinExtra(n, length, m);
    } else {
      means, theta := BoundBeyondExtra(n, length, m);
    }
    CertificateIsMaximum(CycleWeights(length), Counts(n, length), m, means, theta);
    CountsAreWellFormed(n, length);
    NullValueIsMaximum(CycleWeights(length), Counts(n, length), m);
  }

  /**
   In every prefix, finished or not, severities averaging at most m can be expected
   to score at most the closed form, and some severity means do expect that much.
   */
  lemma PrefixBoundIsTight(n: nat, length: nat, m: real)
    requires length > 0 && 0.0 <= m <= 1.0
    ensures forall means :: Feasible(CycleWeights(length), m, means) ==> PrefixExpectation(means, n) <= PrefixBound(n, length, m)
    ensures exists means :: Feasible(CycleWeights(length), m, means) && PrefixExpectation(means, n) == PrefixBound(n, length, m)
  {
    hide Dot, PrefixBound;
    PrefixBoundIsMaximum(n, length, m);
    forall means | Feasible(CycleWeights(length), m, means)
      ensures PrefixExpectation(means, n) == Dot(Counts(n, length), means)
    {
      PrefixExpectationIsDot(means, n);
    }
  }

  // The two tests as the code computes them.

  /** The observations a one-sided test reads: the scores, or their complements. */
  function Observed(direction: Direction, scores: seq<real>): seq<real>
  {
    if direction == Greater then scores else Complement(scores)
  }

  function Facing(direction: Direction, m: real): real
  {
    if direction == Greater then m else 1.0 - m
  }

  lemma {:induction false} SumComplement(scores: seq<real>)
    ensures Sum(Complement(scores)) == |scores| as real - Sum(scores)
  {
    if scores != [] {
      var k := |scores| - 1;
      assert Complement(scores)[..k] == Complement(scores[..k]);
      SumComplement(scores[..k]);
    }
  }

  lemma {:induction false} SumInRange(scores: seq<real>)
    requires InUnitBox(scores)
    ensures 0.0 <= Sum(scores) <= |scores| as real
  {
    if scores != [] {
      var k := |scores| - 1;
      assert forall i :: 0 <= i < k ==> 0.0 <= scores[..k][i] <= 1.0;
      SumInRange(scores[..k]);
    }
  }

  predicate ScoresValid(scores: seq<real>)
    ensures ScoresValid(scores) == InUnitBox(scores)
  {
    forall i :: 0 <= i < |scores| ==> 0.0 <= scores[i] <= 1.0
  }

  /** Evidence at a prefix of one cell: the closed form is what the null expects. */
  function PrefixCentered(direction: Direction, scores: seq<real>, length: nat, m: real): real
    requires length > 0
  {
    Sum(Observed(direction, scores)) - PrefixBound(|scores|, length, Facing(direction, m))
  }

  /** Evidence from complete cycles, each worth pairsPerCycle independent pairs. */
  function CycleCentered(direction: Direction, scores: seq<real>, pairsPerCycle: real, m: real): real
  {
    var count := |scores| as real * pairsPerCycle;
    var centered := pairsPerCycle * Sum(scores) - count * m;
    if direction == Less then -centered else centered
  }

  function PrefixTest(exp: real -> real, direction: Direction, scores: seq<real>, length: nat, error: real): real --> bool
    requires length > 0 && 0.0 < error < 1.0
  {
    m requires 0.0 <= m <= 1.0 => Exceeds(exp, PrefixCentered(direction, scores, length, m), |scores| as real, error)
  }

  function CycleTest(exp: real -> real, direction: Direction, scores: seq<real>, pairsPerCycle: real, error: real): real --> bool
    requires 0.0 < error < 1.0
  {
    m requires 0.0 <= m <= 1.0 =>
      Exceeds(exp, CycleCentered(direction, scores, pairsPerCycle, m), |scores| as real * pairsPerCycle, error)
  }

  // Both are the weighted test of a particular allocation.

  /** One stratum a severity, each pair a unit coefficient. */
  function AsPrefixAllocation(scores: seq<real>, length: nat): Allocation
    requires length > 0
  {
    Allocation(Sum(scores), |scores| as real, CycleWeights(length), Counts(|scores|, length))
  }

  /** A single stratum holding every pair of every cycle. */
  function AsCycleAllocation(scores: seq<real>, pairsPerCycle: real): Allocation
  {
    var count := |scores| as real * pairsPerCycle;
    Allocation(pairsPerCycle * Sum(scores), count, [1.0], [count])
  }

  /** The cell test is the weighted test of its severity cycle. */
  lemma PrefixTestIsWeighted(direction: Direction, scores: seq<real>, length: nat, m: real)
    requires length > 0 && 0.0 <= m <= 1.0 && InUnitBox(scores)
    ensures AsPrefixAllocation(scores, length).Valid() && Sum(AsPrefixAllocation(scores, length).weights) == 1.0
    ensures AsPrefixAllocation(scores, length).Centered(direction, m) == PrefixCentered(direction, scores, length, m)
  {
    hide Sum, NullValue, PrefixBound;
    CountsAreWellFormed(|scores|, length);
    PrefixBoundIsMaximum(|scores|, length, Facing(direction, m));
    SumComplement(scores);
    SumInRange(scores);
  }

  lemma OneStratum(mass: real, m: real)
    requires mass >= 0.0 && 0.0 <= m <= 1.0
    ensures ValidInputs([1.0], [mass], m) && NullValue([1.0], [mass], m) == mass * m
    ensures Sum([mass]) == mass && Sum([1.0]) == 1.0
  {
    assert Mul(mass, 1.0) == mass && Mul(1.0, m) == m && Mul(mass, m) == mass * m;
    assert Sum([1.0]) == 1.0 && Sum([mass]) == mass;
    assert Dot([], []) == 0.0;
    hide Dot, Sum, Mul, NullValue;
    DotAppend([], [], 1.0, m);
    DotAppend([], [], mass, m);
    assert [1.0] == [] + [1.0] && [mass] == [] + [mass] && [m] == [] + [m];
    assert Certificate([1.0], [mass], m, [m], mass);
    CertificateIsMaximum([1.0], [mass], m, [m], mass);
    NullValueIsMaximum([1.0], [mass], m);
  }

  /** The complete-cycle test is the weighted test of a single stratum. */
  lemma CycleTestIsWeighted(direction: Direction, scores: seq<real>, pairsPerCycle: real, m: real)
    requires pairsPerCycle > 0.0 && 0.0 <= m <= 1.0 && InUnitBox(scores)
    ensures AsCycleAllocation(scores, pairsPerCycle).Valid() && Sum(AsCycleAllocation(scores, pairsPerCycle).weights) == 1.0
    ensures AsCycleAllocation(scores, pairsPerCycle).Centered(direction, m) == CycleCentered(direction, scores, pairsPerCycle, m)
  {
    hide Sum, NullValue;
    SumInRange(scores);
    var count := |scores| as real * pairsPerCycle;
    assert count * (1.0 - m) == count - count * m;
    assert 0.0 <= pairsPerCycle * Sum(scores) <= count by {
      ComparePrice(Sum(scores), |scores| as real, pairsPerCycle);
      ComparePrice(Sum(scores), 0.0, pairsPerCycle);
    }
    OneStratum(count, Facing(direction, m));
    OneStratum(count, 0.0);
  }

  // The bounds the code returns.

  /** Tests that agree with an allocation's tests share everything proved about those. */
  lemma AgreeingTests(exp: real -> real, a: Allocation, error: real, greater: real --> bool, less: real --> bool)
    requires Grows(exp) && a.Valid() && 0.0 < error < 1.0 && Sum(a.weights) <= 1.0
    requires forall m :: 0.0 <= m <= 1.0 ==> greater.requires(m) && greater(m) == a.Test(exp, Greater, error)(m)
    requires forall m :: 0.0 <= m <= 1.0 ==> less.requires(m) && less(m) == a.Test(exp, Less, error)(m)
    ensures Closed(Greater, greater) && Closed(Less, less)
    ensures forall m :: 0.0 <= m <= 1.0 ==> !(greater(m) && less(m))
  {
    a.TestIsClosed(exp, Greater, error);
    a.TestIsClosed(exp, Less, error);
    a.SeparatedByWeights(exp, error);
    forall m | 0.0 <= m <= 1.0
      ensures !(greater(m) && less(m))
    {
      a.TestsAreDisjoint(exp, error, m);
    }
  }

  lemma PrefixTestsAgree(exp: real -> real, scores: seq<real>, length: nat, error: real)
    requires length > 0 && InUnitBox(scores) && 0.0 < error < 1.0
    ensures var a := AsPrefixAllocation(scores, length);
      && a.Valid() && Sum(a.weights) == 1.0
      && (forall m :: 0.0 <= m <= 1.0 ==> PrefixTest(exp, Greater, scores, length, error)(m) == a.Test(exp, Greater, error)(m))
      && (forall m :: 0.0 <= m <= 1.0 ==> PrefixTest(exp, Less, scores, length, error)(m) == a.Test(exp, Less, error)(m))
  {
    hide Exceeds, PrefixCentered;
    PrefixTestIsWeighted(Greater, scores, length, 0.0);
    forall m | 0.0 <= m <= 1.0
      ensures PrefixTest(exp, Greater, scores, length, error)(m) == AsPrefixAllocation(scores, length).Test(exp, Greater, error)(m)
      ensures PrefixTest(exp, Less, scores, length, error)(m) == AsPrefixAllocation(scores, length).Test(exp, Less, error)(m)
    {
      PrefixTestIsWeighted(Greater, scores, length, m);
      PrefixTestIsWeighted(Less, scores, length, m);
    }
  }

  lemma CycleTestsAgree(exp: real -> real, scores: seq<real>, pairsPerCycle: real, error: real)
    requires pairsPerCycle > 0.0 && InUnitBox(scores) && 0.0 < error < 1.0
    ensures var a := AsCycleAllocation(scores, pairsPerCycle);
      && a.Valid() && Sum(a.weights) == 1.0
      && (forall m :: 0.0 <= m <= 1.0 ==> CycleTest(exp, Greater, scores, pairsPerCycle, error)(m) == a.Test(exp, Greater, error)(m))
      && (forall m :: 0.0 <= m <= 1.0 ==> CycleTest(exp, Less, scores, pairsPerCycle, error)(m) == a.Test(exp, Less, error)(m))
  {
    hide Exceeds, CycleCentered;
    CycleTestIsWeighted(Greater, scores, pairsPerCycle, 0.0);
    forall m | 0.0 <= m <= 1.0
      ensures CycleTest(exp, Greater, scores, pairsPerCycle, error)(m) == AsCycleAllocation(scores, pairsPerCycle).Test(exp, Greater, error)(m)
      ensures CycleTest(exp, Less, scores, pairsPerCycle, error)(m) == AsCycleAllocation(scores, pairsPerCycle).Test(exp, Less, error)(m)
    {
      CycleTestIsWeighted(Greater, scores, pairsPerCycle, m);
      CycleTestIsWeighted(Less, scores, pairsPerCycle, m);
    }
  }

  /**
   A cell bound excludes the true severity means only if the mixture centred at
   them has reached 1/error, at every contiguous prefix.
   */
  lemma PrefixExclusionNeedsTrueEvidence(exp: real -> real, direction: Direction, scores: seq<real>, length: nat,
                                         error: real, bound: real, means: seq<real>)
    requires length > 0 && InUnitBox(scores) && 0.0 < error < 1.0 && Grows(exp)
    requires IsBound(direction, PrefixTest(exp, direction, scores, length, error), bound)
    requires bound != Endpoint(direction) && |means| == length
    requires AsPrefixAllocation(scores, length).Null(direction, bound, means)
    ensures var excess := Sum(scores) - PrefixExpectation(means, |scores|);
      Exceeds(exp, if direction == Greater then excess else -excess, |scores| as real, error)
  {
    hide Exceeds, Sum, Dot, PrefixCentered, IsBound, Counts, CycleWeights, NullValue, Samples;
    var a := AsPrefixAllocation(scores, length);
    MovedBoundIsRejected(direction, PrefixTest(exp, direction, scores, length, error), bound);
    PrefixTestIsWeighted(direction, scores, length, bound);
    a.CenteredIsDominated(direction, bound, means);
    ExceedsMonotone(exp, a.Centered(direction, bound), a.CenteredAt(direction, means), a.information, error);
    PrefixExpectationIsDot(means, |scores|);
  }

  method StratifiedPairConfidenceSequence(exp: real -> real, scores: seq<real>, length: int, error: real)
    returns (r: Result<(real, real)>)
    requires Grows(exp)
    ensures r.Success? <==> 0.0 < error < 1.0 && (scores == [] || (length > 0 && InUnitBox(scores)))
    ensures r.Success? ==> 0.0 <= r.value.0 < r.value.1 <= 1.0
    ensures r.Success? && scores == [] ==> r.value == (0.0, 1.0)
    ensures r.Success? && scores != [] ==>
      && IsBound(Greater, PrefixTest(exp, Greater, scores, length, error), r.value.0)
      && IsBound(Less, PrefixTest(exp, Less, scores, length, error), r.value.1)
  {
    if !(0.0 < error < 1.0) {
      return Failure("stratified pair error probability must be in (0, 1)");
    }
    if scores == [] {
      return Success((0.0, 1.0));
    }
    if length <= 0 || !ScoresValid(scores) {
      return Failure("invalid stratified paired e-process inputs");
    }
    var greater, less := PrefixTest(exp, Greater, scores, length, error), PrefixTest(exp, Less, scores, length, error);
    PrefixTestsAgree(exp, scores, length, error);
    AgreeingTests(exp, AsPrefixAllocation(scores, length), error, greater, less);
    var lower := Bound(Greater, greater);
    var upper := Bound(Less, less);
    BoundsDoNotCross(greater, less, lower, upper);
    r := Success((lower, upper));
  }

  method CycleConfidenceSequence(exp: real -> real, scores: seq<real>, pairsPerCycle: real, error: real)
    returns (r: Result<(real, real)>)
    requires Grows(exp)
    ensures r.Success? <==> 0.0 < error < 1.0 && (scores == [] || (pairsPerCycle > 0.0 && InUnitBox(scores)))
    ensures r.Success? ==> 0.0 <= r.value.0 < r.value.1 <= 1.0
    ensures r.Success? && scores == [] ==> r.value == (0.0, 1.0)
    ensures r.Success? && scores != [] ==>
      && IsBound(Greater, CycleTest(exp, Greater, scores, pairsPerCycle, error), r.value.0)
      && IsBound(Less, CycleTest(exp, Less, scores, pairsPerCycle, error), r.value.1)
  {
    if !(0.0 < error < 1.0) {
      return Failure("cycle error probability must be in (0, 1)");
    }
    if scores == [] {
      return Success((0.0, 1.0));
    }
    if pairsPerCycle <= 0.0 || !ScoresValid(scores) {
      return Failure("invalid paired cycle e-process parameters");
    }
    var greater, less := CycleTest(exp, Greater, scores, pairsPerCycle, error), CycleTest(exp, Less, scores, pairsPerCycle, error);
    CycleTestsAgree(exp, scores, pairsPerCycle, error);
    AgreeingTests(exp, AsCycleAllocation(scores, pairsPerCycle), error, greater, less);
    var lower := Bound(Greater, greater);
    var upper := Bound(Less, less);
    BoundsDoNotCross(greater, less, lower, upper);
    r := Success((lower, upper));
  }
}
