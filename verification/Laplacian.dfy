/** The gradient and the observed information of a Bradley-Terry fit. */
module Laplacian {
  // The information is a weighted graph Laplacian without the anchor's row and column. On
  // a component connected to the anchor it is injective.

  import opened RealVectors
  import opened Paths
  import opened LinearSystem

  /** The decisive results of one unordered pairing. */
  datatype Pairing = Pairing(first: int, second: int, firstWins: real, secondWins: real)

  type Index = map<int, nat>

  /** The identities with a variable, numbered without gaps. */
  ghost predicate Numbers(index: Index, n: nat)
  {
    && (forall a :: a in index ==> index[a] < n)
    && (forall a, b :: a in index && b in index && index[a] == index[b] ==> a == b)
    && (forall i :: 0 <= i < n ==> HasVariable(index, i))
  }

  ghost predicate HasVariable(index: Index, i: nat)
  {
    exists a :: a in index && index[a] == i
  }

  /** +1 for the first identity's variable, -1 for the second's, otherwise 0. */
  function Sign(p: Pairing, index: Index, i: nat): int
  {
    if p.first in index && index[p.first] == i then 1
    else if p.second in index && index[p.second] == i then -1
    else 0
  }

  function Signed(w: real, sign: int): real
  {
    if sign == 1 then w else if sign == -1 then -w else 0.0
  }

  function Incidence(p: Pairing, index: Index, n: nat): (s: Row)
    ensures |s| == n && forall i :: 0 <= i < n ==> s[i] == Signed(1.0, Sign(p, index, i))
  {
    seq(n, i requires 0 <= i < n => Signed(1.0, Sign(p, index, i)))
  }

  type Logits = map<int, real>

  ghost predicate IsProbability(prob: real -> real)
  {
    forall d :: 0.0 < prob(d) < 1.0
  }

  predicate Rated(pairs: seq<Pairing>, logits: Logits)
  {
    forall k :: 0 <= k < |pairs| ==> pairs[k].first in logits && pairs[k].second in logits && pairs[k].first != pairs[k].second
  }

  function Score(p: Pairing, logits: Logits, prob: real -> real): real
    requires p.first in logits && p.second in logits
  {
    p.firstWins - (p.firstWins + p.secondWins) * prob(logits[p.first] - logits[p.second])
  }

  function Weight(p: Pairing, logits: Logits, prob: real -> real): real
    requires p.first in logits && p.second in logits
  {
    var probability := prob(logits[p.first] - logits[p.second]);
    (p.firstWins + p.secondWins) * probability * (1.0 - probability)
  }

  /** Each pairing pulls its two identities apart by its score. */
  function Gradient(pairs: seq<Pairing>, logits: Logits, index: Index, prob: real -> real, n: nat): (g: Row)
    requires Rated(pairs, logits)
    ensures |g| == n
  {
    if pairs == [] then Constant(n, 0.0)
    else
      var k := |pairs| - 1;
      var before := Gradient(pairs[..k], logits, index, prob, n);
      seq(n, i requires 0 <= i < n => before[i] + Signed(Score(pairs[k], logits, prob), Sign(pairs[k], index, i)))
  }

  /** The sum of weight * s * s^T over the pairings' incidence vectors s. */
  function Information(pairs: seq<Pairing>, logits: Logits, index: Index, prob: real -> real, n: nat): (m: Matrix)
    requires Rated(pairs, logits)
    ensures |m| == n && Square(m)
  {
    if pairs == [] then seq(n, _ => Constant(n, 0.0))
    else
      var k := |pairs| - 1;
      AddPairing(Information(pairs[..k], logits, index, prob, n), pairs[k], Weight(pairs[k], logits, prob), index)
  }

  function AddPairing(m: Matrix, p: Pairing, w: real, index: Index): (r: Matrix)
    requires Square(m)
    ensures |r| == |m| && Square(r)
  {
    seq(|m|, i requires 0 <= i < |m| =>
      seq(|m|, j requires 0 <= j < |m| => m[i][j] + Signed(Signed(w, Sign(p, index, i)), Sign(p, index, j))))
  }

  // The code's accumulation.

  method AddAt(m: Matrix, i: nat, j: nat, x: real) returns (r: Matrix)
    requires Square(m) && i < |m| && j < |m|
    ensures |r| == |m| && Square(r)
    ensures forall a, b :: 0 <= a < |m| && 0 <= b < |m| ==> r[a][b] == if a == i && b == j then m[a][b] + x else m[a][b]
  {
    r := m[i := m[i][j := m[i][j] + x]];
  }

  /** The body of the loop: up to two gradient entries and four information entries. */
  method Accumulate(p: Pairing, score: real, weight: real, index: Index, gradient0: Row, information0: Matrix)
    returns (gradient: Row, information: Matrix)
    requires Square(information0) && |gradient0| == |information0|
    requires Numbers(index, |gradient0|) && p.first != p.second
    ensures |gradient| == |gradient0|
    ensures forall i :: 0 <= i < |gradient| ==> gradient[i] == gradient0[i] + Signed(score, Sign(p, index, i))
    ensures information == AddPairing(information0, p, weight, index)
  {
    gradient, information := gradient0, information0;
    if p.first in index {
      var i := index[p.first];
      gradient := gradient[i := gradient[i] + score];
      information := AddAt(information, i, i, weight);
    }
    if p.second in index {
      var j := index[p.second];
      gradient := gradient[j := gradient[j] - score];
      information := AddAt(information, j, j, weight);
    }
    if p.first in index && p.second in index {
      information := AddAt(information, index[p.first], index[p.second], -weight);
      information := AddAt(information, index[p.second], index[p.first], -weight);
    }
    SameEntries(information, AddPairing(information0, p, weight, index));
  }

  method GradientAndInformation(pairs: seq<Pairing>, logits: Logits, index: Index, prob: real -> real, n: nat)
    returns (gradient: Row, information: Matrix)
    requires Rated(pairs, logits) && Numbers(index, n)
    ensures gradient == Gradient(pairs, logits, index, prob, n)
    ensures information == Information(pairs, logits, index, prob, n)
  {
    hide Score, Weight, AddPairing, Sign;
    gradient := Constant(n, 0.0);
    information := seq(n, _ => Constant(n, 0.0));
    assert pairs[..0] == [];
    for k := 0 to |pairs|
      invariant gradient == Gradient(pairs[..k], logits, index, prob, n)
      invariant information == Information(pairs[..k], logits, index, prob, n)
    {
      assert pairs[..k+1][..k] == pairs[..k];
      gradient, information := Accumulate(pairs[k], Score(pairs[k], logits, prob), Weight(pairs[k], logits, prob),
                                          index, gradient, information);
      assert gradient == Gradient(pairs[..k+1], logits, index, prob, n);
    }
    assert pairs[..|pairs|] == pairs;
  }

  // The quadratic form.

  /** The value of an identity when variables take the values x and the anchor is 0. */
  function Value(index: Index, x: Row, a: int): real
    requires forall a :: a in index ==> index[a] < |x|
  {
    if a in index then x[index[a]] else 0.0
  }

  /** By how much the pairing's two values differ. */
  function Gap(p: Pairing, index: Index, x: Row): real
    requires forall a :: a in index ==> index[a] < |x|
  {
    Value(index, x, p.first) - Value(index, x, p.second)
  }

  lemma IncidenceDot(p: Pairing, index: Index, x: Row)
    requires Numbers(index, |x|) && p.first != p.second
    ensures Dot(Incidence(p, index, |x|), x) == Gap(p, index, x)
  {
    hide Dot;
    var n := |x|;
    var s := Incidence(p, index, n);
    var s0 := Constant(n, 0.0);
    DotZero(x, s0);
    var s1 := if p.first in index then s0[index[p.first] := 1.0] else s0;
    if p.first in index { DotUpdate(x, s0, index[p.first], 1.0); }
    var s2 := if p.second in index then s1[index[p.second] := -1.0] else s1;
    if p.second in index { DotUpdate(x, s1, index[p.second], -1.0); }
    assert s == s2;
    DotSymmetric(s, x);
  }

  lemma SignedProducts(w: real, d: real, a: int, b: int)
    ensures Signed(Signed(w, a), b) == Mul(Signed(w, a), Signed(1.0, b))
    ensures Mul(Signed(w, a), d) == Mul(Mul(w, d), Signed(1.0, a))
  {
  }

  /** A row of the sum is the row before plus a multiple of the incidence vector. */
  lemma PairingRow(m: Matrix, p: Pairing, w: real, index: Index, i: nat)
    requires Square(m) && i < |m|
    ensures forall j :: 0 <= j < |m| ==>
      AddPairing(m, p, w, index)[i][j] == m[i][j] + Mul(Signed(w, Sign(p, index, i)), Incidence(p, index, |m|)[j])
  {
    var r := AddPairing(m, p, w, index);
    hide Mul, Signed, Sign;
    forall j | 0 <= j < |m|
      ensures r[i][j] == m[i][j] + Mul(Signed(w, Sign(p, index, i)), Incidence(p, index, |m|)[j])
    {
      SignedProducts(w, 0.0, Sign(p, index, i), Sign(p, index, j));
    }
  }

  lemma RowAddPairing(m: Matrix, p: Pairing, w: real, index: Index, x: Row, i: nat)
    requires |m| == |x| && Square(m) && Numbers(index, |x|) && p.first != p.second && i < |x|
    ensures var d := Gap(p, index, x);
      Dot(AddPairing(m, p, w, index)[i], x) == Dot(m[i], x) + Mul(Mul(w, d), Incidence(p, index, |x|)[i])
  {
    var d := Gap(p, index, x);
    var a := Sign(p, index, i);
    hide Dot, Gap, Mul, Signed, Sign, AddPairing, HasVariable;
    IncidenceDot(p, index, x);
    PairingRow(m, p, w, index, i);
    DotAddMultiple(m[i], Signed(w, a), Incidence(p, index, |x|), AddPairing(m, p, w, index)[i], x);
    SignedProducts(w, d, a, a);
  }

  ghost predicate AddsMultiple(before: Row, c: real, s: Row, after: Row)
  {
    |before| == |s| == |after| && forall i :: 0 <= i < |s| ==> after[i] == before[i] + Mul(c, s[i])
  }

  /** Adding a pairing adds a multiple of its incidence vector to every product. */
  lemma ApplyAddPairing(m: Matrix, p: Pairing, w: real, index: Index, x: Row)
    requires |m| == |x| && Square(m) && Numbers(index, |x|) && p.first != p.second
    ensures var d := Gap(p, index, x);
      AddsMultiple(Apply(m, x), Mul(w, d), Incidence(p, index, |x|), Apply(AddPairing(m, p, w, index), x))
  {
    hide Dot, Gap, Mul, AddPairing, Sign, Signed, HasVariable;
    forall i | 0 <= i < |x|
      ensures Dot(AddPairing(m, p, w, index)[i], x)
        == Dot(m[i], x) + Mul(Mul(w, Gap(p, index, x)), Incidence(p, index, |x|)[i])
    {
      RowAddPairing(m, p, w, index, x, i);
    }
  }

  /** The bilinear form: sum of weight times both differences of values. */
  function Cross(pairs: seq<Pairing>, logits: Logits, index: Index, prob: real -> real, x: Row, y: Row): real
    requires Rated(pairs, logits) && |x| == |y|
    requires forall a :: a in index ==> index[a] < |x|
  {
    if pairs == [] then 0.0
    else
      var k := |pairs| - 1;
      Cross(pairs[..k], logits, index, prob, x, y)
        + Mul(Weight(pairs[k], logits, prob), Mul(Gap(pairs[k], index, x), Gap(pairs[k], index, y)))
  }

  /** The quadratic form: sum of weight * (difference of values)^2. */
  function Energy(pairs: seq<Pairing>, logits: Logits, index: Index, prob: real -> real, x: Row): real
    requires Rated(pairs, logits)
    requires forall a :: a in index ==> index[a] < |x|
  {
    Cross(pairs, logits, index, prob, x, x)
  }

  /** What the information matrix means: its products are those of the bilinear form. */
  lemma {:induction false} BilinearForm(pairs: seq<Pairing>, logits: Logits, index: Index, prob: real -> real, x: Row, y: Row)
    requires Rated(pairs, logits) && Numbers(index, |x|) && |x| == |y|
    ensures Dot(Apply(Information(pairs, logits, index, prob, |x|), x), y) == Cross(pairs, logits, index, prob, x, y)
  {
    hide Dot, Weight;
    var n := |x|;
    if pairs == [] {
      var m := Information(pairs, logits, index, prob, n);
      forall i | 0 <= i < n ensures Apply(m, x)[i] == 0.0 {
        DotSymmetric(m[i], x);
        DotZero(x, m[i]);
      }
      DotSymmetric(Apply(m, x), y);
      DotZero(y, Apply(m, x));
    } else {
      var k := |pairs| - 1;
      BilinearForm(pairs[..k], logits, index, prob, x, y);
      CrossAddPairing(Information(pairs[..k], logits, index, prob, n), pairs[k], Weight(pairs[k], logits, prob), index, x, y);
    }
  }

  lemma QuadraticForm(pairs: seq<Pairing>, logits: Logits, index: Index, prob: real -> real, x: Row)
    requires Rated(pairs, logits) && Numbers(index, |x|)
    ensures Dot(Apply(Information(pairs, logits, index, prob, |x|), x), x) == Energy(pairs, logits, index, prob, x)
  {
    hide Dot, Cross, Information;
    BilinearForm(pairs, logits, index, prob, x, x);
  }

  lemma CrossStep(before: Row, after: Row, s: Row, y: Row, w: real, d: real, e: real)
    requires |s| == |y| && Dot(s, y) == e && AddsMultiple(before, Mul(w, d), s, after)
    ensures Dot(after, y) == Dot(before, y) + Mul(w, Mul(d, e))
  {
    hide Dot, Mul;
    MulAssociative(w, d, e);
    DotAddMultiple(before, Mul(w, d), s, after, y);
  }

  lemma CrossAddPairing(m: Matrix, p: Pairing, w: real, index: Index, x: Row, y: Row)
    requires |m| == |x| == |y| && Square(m) && Numbers(index, |x|) && p.first != p.second
    ensures Dot(Apply(AddPairing(m, p, w, index), x), y)
      == Dot(Apply(m, x), y) + Mul(w, Mul(Gap(p, index, x), Gap(p, index, y)))
  {
    hide Dot, Gap, Mul, AddPairing, Apply, Incidence, AddsMultiple;
    ApplyAddPairing(m, p, w, index, x);
    IncidenceDot(p, index, y);
    CrossStep(Apply(m, x), Apply(AddPairing(m, p, w, index), x), Incidence(p, index, |x|), y, w,
              Gap(p, index, x), Gap(p, index, y));
  }

  /** The slope of the log-likelihood along x: each pairing's score times its change of difference. */
  function Slope(pairs: seq<Pairing>, logits: Logits, index: Index, prob: real -> real, x: Row): real
    requires Rated(pairs, logits)
    requires forall a :: a in index ==> index[a] < |x|
  {
    if pairs == [] then 0.0
    else
      var k := |pairs| - 1;
      Slope(pairs[..k], logits, index, prob, x) + Mul(Score(pairs[k], logits, prob), Gap(pairs[k], index, x))
  }

  lemma SignedIsProduct(w: real, sign: int)
    ensures Signed(w, sign) == Mul(w, Signed(1.0, sign))
  {
  }

  lemma {:induction false} GradientForm(pairs: seq<Pairing>, logits: Logits, index: Index, prob: real -> real, x: Row)
    requires Rated(pairs, logits) && Numbers(index, |x|)
    ensures Dot(Gradient(pairs, logits, index, prob, |x|), x) == Slope(pairs, logits, index, prob, x)
  {
    hide Dot, Score, Gap, Mul, Sign, Signed;
    var n := |x|;
    var g := Gradient(pairs, logits, index, prob, n);
    if pairs == [] {
      DotSymmetric(g, x);
      DotZero(x, g);
    } else {
      var k := |pairs| - 1;
      var score, s := Score(pairs[k], logits, prob), Incidence(pairs[k], index, n);
      GradientForm(pairs[..k], logits, index, prob, x);
      IncidenceDot(pairs[k], index, x);
      forall i | 0 <= i < n
        ensures g[i] == Gradient(pairs[..k], logits, index, prob, n)[i] + Mul(score, s[i])
      {
        SignedIsProduct(score, Sign(pairs[k], index, i));
      }
      DotAddMultiple(Gradient(pairs[..k], logits, index, prob, n), score, s, g, x);
    }
  }

  /** Along a solution of the Newton system the slope is the solution's energy. */
  lemma NewtonAscends(pairs: seq<Pairing>, logits: Logits, index: Index, prob: real -> real, delta: Row)
    requires Rated(pairs, logits) && Numbers(index, |delta|)
    requires Solves(Information(pairs, logits, index, prob, |delta|), Gradient(pairs, logits, index, prob, |delta|), delta)
    ensures Slope(pairs, logits, index, prob, delta) == Energy(pairs, logits, index, prob, delta)
  {
    var m := Information(pairs, logits, index, prob, |delta|);
    var g := Gradient(pairs, logits, index, prob, |delta|);
    hide Dot, Information, Gradient;
    assert Apply(m, delta) == g;
    QuadraticForm(pairs, logits, index, prob, delta);
    GradientForm(pairs, logits, index, prob, delta);
  }

  lemma {:induction false} EnergyTerms(pairs: seq<Pairing>, logits: Logits, index: Index, prob: real -> real, x: Row, k: nat)
    requires Rated(pairs, logits) && (forall a :: a in index ==> index[a] < |x|)
    requires forall j :: 0 <= j < |pairs| ==> Weight(pairs[j], logits, prob) > 0.0
    ensures Energy(pairs, logits, index, prob, x) >= 0.0
    ensures Energy(pairs, logits, index, prob, x) == 0.0 && k < |pairs| ==>
      Value(index, x, pairs[k].first) == Value(index, x, pairs[k].second)
  {
    hide Weight, Value;
    if pairs != [] {
      var m := |pairs| - 1;
      EnergyTerms(pairs[..m], logits, index, prob, x, k);
      SquareTerm(Weight(pairs[m], logits, prob), Gap(pairs[m], index, x));
    }
  }

  lemma SquareTerm(w: real, d: real)
    requires w > 0.0
    ensures Mul(w, Mul(d, d)) >= 0.0 && (Mul(w, Mul(d, d)) == 0.0 ==> d == 0.0)
  {
    MulUnits(d);
    hide Mul;
    if d != 0.0 { PositiveSquare(d); PositiveProduct(w, Mul(d, d)); } else { MulUnits(w); }
  }

  // Connectivity makes the system solvable.

  predicate Joins(p: Pairing, a: int, b: int)
  {
    (p.first == a && p.second == b) || (p.first == b && p.second == a)
  }

  predicate HavePlayed(pairs: seq<Pairing>, a: int, b: int)
  {
    exists k :: 0 <= k < |pairs| && Joins(pairs[k], a, b)
  }

  /** The two identities met in a decisive game. */
  function Plays(pairs: seq<Pairing>): Edge
  {
    (a: int, b: int) => HavePlayed(pairs, a, b)
  }

  /** Every variable's identity is joined to the anchor by pairings. */
  ghost predicate Anchored(pairs: seq<Pairing>, index: Index, anchor: int)
  {
    anchor !in index && forall a :: a in index ==> Connected(Plays(pairs), anchor, a)
  }

  predicate AtZero(index: Index, x: Row, a: int)
  {
    a in index && index[a] < |x| ==> x[index[a]] == 0.0
  }

  lemma ZeroEnergyIsFlat(pairs: seq<Pairing>, logits: Logits, index: Index, prob: real -> real, x: Row, anchor: int, a: int)
    requires Rated(pairs, logits) && (forall a :: a in index ==> index[a] < |x|)
    requires forall j :: 0 <= j < |pairs| ==> Weight(pairs[j], logits, prob) > 0.0
    requires Energy(pairs, logits, index, prob, x) == 0.0
    requires anchor !in index && Connected(Plays(pairs), anchor, a)
    ensures Value(index, x, a) == 0.0
  {
    var edge := Plays(pairs);
    forall b, c | AtZero(index, x, b) && edge(b, c)
      ensures AtZero(index, x, c)
    {
      var k :| 0 <= k < |pairs| && Joins(pairs[k], b, c);
      EnergyTerms(pairs, logits, index, prob, x, k);
    }
    var p :| Connects(edge, p, anchor, a);
    PreservedAlong(edge, b => AtZero(index, x, b), p);
    assert AtZero(index, x, a);
  }

  lemma FlatIsZero(pairs: seq<Pairing>, logits: Logits, index: Index, prob: real -> real, x: Row, anchor: int)
    requires Rated(pairs, logits) && Numbers(index, |x|) && Anchored(pairs, index, anchor)
    requires forall j :: 0 <= j < |pairs| ==> Weight(pairs[j], logits, prob) > 0.0
    requires Energy(pairs, logits, index, prob, x) == 0.0
    ensures IsZero(x)
  {
    hide Weight, Energy;
    forall i | 0 <= i < |x|
      ensures x[i] == 0.0
    {
      assert HasVariable(index, i);
      var a :| a in index && index[a] == i;
      ZeroEnergyIsFlat(pairs, logits, index, prob, x, anchor, a);
    }
  }

  /**
   The information matrix of pairings with positive weight sends only zero to zero,
   whenever every variable is joined to the anchor. Solving it always succeeds.
   */
  lemma AnchoredInformationIsInjective(pairs: seq<Pairing>, logits: Logits, index: Index, prob: real -> real, n: nat, anchor: int)
    requires Rated(pairs, logits) && Numbers(index, n) && Anchored(pairs, index, anchor)
    requires forall j :: 0 <= j < |pairs| ==> Weight(pairs[j], logits, prob) > 0.0
    ensures Injective(Information(pairs, logits, index, prob, n))
  {
    hide Dot, Weight;
    var m := Information(pairs, logits, index, prob, n);
    forall x: Row | |x| == n && Solves(m, Constant(n, 0.0), x)
      ensures IsZero(x)
    {
      QuadraticForm(pairs, logits, index, prob, x);
      DotSymmetric(Apply(m, x), x);
      DotZero(x, Apply(m, x));
      FlatIsZero(pairs, logits, index, prob, x, anchor);
    }
  }

  /** So the slope is positive unless the gradient vanishes. */
  lemma SlopeIsPositive(pairs: seq<Pairing>, logits: Logits, index: Index, prob: real -> real, delta: Row, anchor: int)
    requires Rated(pairs, logits) && Numbers(index, |delta|) && Anchored(pairs, index, anchor)
    requires forall j :: 0 <= j < |pairs| ==> Weight(pairs[j], logits, prob) > 0.0
    requires Solves(Information(pairs, logits, index, prob, |delta|), Gradient(pairs, logits, index, prob, |delta|), delta)
    ensures var slope := Slope(pairs, logits, index, prob, delta);
      slope >= 0.0 && (slope == 0.0 ==> IsZero(delta) && IsZero(Gradient(pairs, logits, index, prob, |delta|)))
  {
    hide Weight, Energy, Slope, Gradient, Information, Dot;
    NewtonAscends(pairs, logits, index, prob, delta);
    EnergyTerms(pairs, logits, index, prob, delta, 0);
    if Slope(pairs, logits, index, prob, delta) == 0.0 {
      FlatIsZero(pairs, logits, index, prob, delta, anchor);
      forall i | 0 <= i < |delta| ensures Gradient(pairs, logits, index, prob, |delta|)[i] == 0.0 {
        DotZero(Information(pairs, logits, index, prob, |delta|)[i], delta);
      }
    }
  }

  /** At least one game and a probability strictly between 0 and 1 weigh something. */
  lemma WeightPositive(p: Pairing, logits: Logits, prob: real -> real)
    requires p.first in logits && p.second in logits && IsProbability(prob)
    requires p.firstWins + p.secondWins > 0.0
    ensures Weight(p, logits, prob) > 0.0
  {
    var probability := prob(logits[p.first] - logits[p.second]);
    PositiveProduct(p.firstWins + p.secondWins, probability);
    PositiveProduct((p.firstWins + p.secondWins) * probability, 1.0 - probability);
  }
}
