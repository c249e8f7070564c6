/**
 Rating covariances with the anchor fixed, and variances of differences. In exact
 arithmetic no variance is negative, so the guards max(0.0, variance) change nothing.
 */
module Covariance {
  import opened RealVectors
  import opened LinearSystem
  import opened Inversion
  import opened Laplacian

  lemma {:induction false} InformationIsSymmetric(pairs: seq<Pairing>, logits: Logits, index: Index, prob: real -> real, n: nat)
    requires Rated(pairs, logits)
    ensures Inversion.Symmetric(Information(pairs, logits, index, prob, n))
  {
    hide Weight, Sign;
    if pairs != [] {
      InformationIsSymmetric(pairs[..|pairs|-1], logits, index, prob, n);
    }
  }

  /** One entry of the reported matrix, without its constant factor: the anchor's are zero. */
  function Entry(covariance: Matrix, index: Index, a: int, b: int): real
    requires Square(covariance) && forall a :: a in index ==> index[a] < |covariance|
  {
    if a in index && b in index then covariance[index[a]][index[b]] else 0.0
  }

  /** The variance the code computes for the difference of two ratings. */
  function ContrastVariance(covariance: Matrix, index: Index, a: int, b: int): real
    requires Square(covariance) && forall a :: a in index ==> index[a] < |covariance|
  {
    Entry(covariance, index, a, a) + Entry(covariance, index, b, b) - 2.0 * Entry(covariance, index, a, b)
  }

  function Versus(a: int, b: int): Pairing { Pairing(a, b, 0.0, 0.0) }

  /** A rating's value in the image of the contrast vector, read off the covariance matrix. */
  lemma ImageValue(covariance: Matrix, index: Index, a: int, b: int, c: int)
    requires Square(covariance) && Numbers(index, |covariance|) && a != b
    ensures var s := Incidence(Versus(a, b), index, |covariance|);
      Value(index, Apply(covariance, s), c) == Entry(covariance, index, c, a) - Entry(covariance, index, c, b)
  {
    hide Dot, Incidence;
    if c in index {
      var row := covariance[index[c]];
      IncidenceDot(Versus(a, b), index, row);
      DotSymmetric(row, Incidence(Versus(a, b), index, |covariance|));
    }
  }

  /** A contrast's variance is the energy of the displacement that the contrast causes. */
  lemma ContrastVarianceIsEnergy(pairs: seq<Pairing>, logits: Logits, index: Index, prob: real -> real,
                                 covariance: Matrix, a: int, b: int)
    requires Rated(pairs, logits) && Numbers(index, |covariance|) && a != b
    requires IsInverse(Information(pairs, logits, index, prob, |covariance|), covariance)
    ensures var s := Incidence(Versus(a, b), index, |covariance|);
      && Apply(Information(pairs, logits, index, prob, |covariance|), Apply(covariance, s)) == s
      && ContrastVariance(covariance, index, a, b) == Energy(pairs, logits, index, prob, Apply(covariance, s))
  {
    var n := |covariance|;
    var m := Information(pairs, logits, index, prob, n);
    var s := Incidence(Versus(a, b), index, n);
    var x := Apply(covariance, s);
    InformationIsSymmetric(pairs, logits, index, prob, n);
    InverseIsSymmetric(m, covariance);
    assert Entry(covariance, index, a, b) == Entry(covariance, index, b, a);
    hide Information, IsInverse, Inversion.Symmetric, Dot, Energy, Incidence, Entry;
    InverseSolves(m, covariance, s);
    QuadraticForm(pairs, logits, index, prob, x);
    IncidenceDot(Versus(a, b), index, x);
    ImageValue(covariance, index, a, b, a);
    ImageValue(covariance, index, a, b, b);
  }

  /** Distinct ratings differ with positive variance. */
  lemma ContrastVarianceIsPositive(pairs: seq<Pairing>, logits: Logits, index: Index, prob: real -> real,
                                   covariance: Matrix, anchor: int, a: int, b: int)
    requires Rated(pairs, logits) && Numbers(index, |covariance|) && Anchored(pairs, index, anchor)
    requires forall j :: 0 <= j < |pairs| ==> Weight(pairs[j], logits, prob) > 0.0
    requires IsInverse(Information(pairs, logits, index, prob, |covariance|), covariance)
    requires a != b && (a in index || b in index)
    ensures ContrastVariance(covariance, index, a, b) > 0.0
  {
    var n := |covariance|;
    var m := Information(pairs, logits, index, prob, n);
    var s := Incidence(Versus(a, b), index, n);
    assert !IsZero(s) by {
      var i := if a in index then index[a] else index[b];
      assert s[i] != 0.0;
    }
    hide Information, IsInverse, Dot, Energy, Incidence, Weight, ContrastVariance;
    var x := Apply(covariance, s);
    ContrastVarianceIsEnergy(pairs, logits, index, prob, covariance, a, b);
    EnergyTerms(pairs, logits, index, prob, x, 0);
    if Energy(pairs, logits, index, prob, x) == 0.0 {
      FlatIsZero(pairs, logits, index, prob, x, anchor);
      ZeroImage(m, x);
    }
  }

  lemma ZeroImage(m: Matrix, x: Row)
    requires Rectangular(m, |x|) && IsZero(x)
    ensures IsZero(Apply(m, x))
  {
    forall i | 0 <= i < |m| ensures Dot(m[i], x) == 0.0 {
      DotZero(m[i], x);
    }
  }
}
