/**
 Sums and inner products of real sequences, with the laws that the statistical and the
 linear-algebra modules use. Both recurse from the last element, so a proof by induction
 drops the last entry. Products also have a name, for proofs that only compare them and
 must not expand them.
 */
module RealVectors {

  function Sum(xs: seq<real>): real
  {
    if xs == [] then 0.0 else Sum(xs[..|xs|-1]) + xs[|xs|-1]
  }

  function Dot(a: seq<real>, b: seq<real>): real
    requires |a| == |b|
  {
    if a == [] then 0.0 else Dot(a[..|a|-1], b[..|b|-1]) + a[|a|-1] * b[|b|-1]
  }

  /** A product by name, for proofs that only compare products and never expand them. */
  function Mul(x: real, y: real): real { x * y }

  lemma MulUnits(x: real)
    ensures Mul(1.0, x) == x && Mul(0.0, x) == 0.0 && Mul(x, 1.0) == x && Mul(x, 0.0) == 0.0
  {
  }

  lemma MulCommutative(x: real, y: real)
    ensures Mul(x, y) == Mul(y, x)
  {
  }

  lemma MulAssociative(x: real, y: real, z: real)
    ensures Mul(Mul(x, y), z) == Mul(x, Mul(y, z))
  {
  }

  function Constant(n: nat, x: real): (v: seq<real>)
    ensures |v| == n && forall i :: 0 <= i < n ==> v[i] == x
  {
    seq(n, _ => x)
  }

  /** One more pair of entries adds one product. */
  lemma DotAppend(a: seq<real>, b: seq<real>, x: real, y: real)
    requires |a| == |b|
    ensures Dot(a + [x], b + [y]) == Dot(a, b) + Mul(x, y)
  {
    assert (a + [x])[..|a|] == a;
    assert (b + [y])[..|b|] == b;
  }

  lemma {:induction false} DotSymmetric(a: seq<real>, b: seq<real>)
    requires |a| == |b|
    ensures Dot(a, b) == Dot(b, a)
  {
    if a != [] {
      DotSymmetric(a[..|a|-1], b[..|b|-1]);
    }
  }

  lemma {:induction false} DotUpdate(a: seq<real>, b: seq<real>, i: nat, x: real)
    requires |a| == |b| && i < |b|
    ensures Dot(a, b[i := x]) == Dot(a, b) + a[i] * (x - b[i])
  {
    var m := |a| - 1;
    if i == m {
      assert b[i := x][..m] == b[..m];
      assert a[m] * x == a[m] * b[m] + a[m] * (x - b[m]);
    } else {
      assert b[i := x][..m] == b[..m][i := x];
      DotUpdate(a[..m], b[..m], i, x);
    }
  }

  lemma {:induction false} DotZero(a: seq<real>, b: seq<real>)
    requires |a| == |b| && forall i :: 0 <= i < |b| ==> b[i] == 0.0
    ensures Dot(a, b) == 0.0
  {
    if a != [] {
      DotZero(a[..|a|-1], b[..|b|-1]);
    }
  }

  lemma {:induction false} DotConstant(a: seq<real>, x: real)
    ensures Dot(a, Constant(|a|, x)) == Sum(a) * x
  {
    if a != [] {
      var m := |a| - 1;
      assert Constant(|a|, x)[..m] == Constant(m, x);
      DotConstant(a[..m], x);
      assert Sum(a) * x == Sum(a[..m]) * x + a[m] * x;
    }
  }

  /** Adding c times b to a adds c times its product. */
  lemma {:induction false} DotAddMultiple(a: seq<real>, c: real, b: seq<real>, r: seq<real>, y: seq<real>)
    requires |a| == |b| == |r| == |y|
    requires forall i :: 0 <= i < |r| ==> r[i] == a[i] + Mul(c, b[i])
    ensures Dot(r, y) == Dot(a, y) + Mul(c, Dot(b, y))
  {
    if r != [] {
      var m := |r| - 1;
      DotAddMultiple(a[..m], c, b[..m], r[..m], y[..m]);
      MultipleOfNext(c, Dot(b[..m], y[..m]), a[m], b[m], y[m]);
    } else {
      MulUnits(c);
    }
  }

  lemma MultipleOfNext(c: real, q: real, a: real, b: real, y: real)
    ensures Mul(c, q) + (a + Mul(c, b)) * y == a * y + Mul(c, q + b * y)
  {
    assert (a + c * b) * y == a * y + c * (b * y);
  }

  /** Scaling a row scales its product. */
  lemma DotScale(a: seq<real>, c: real, r: seq<real>, y: seq<real>)
    requires |a| == |r| == |y|
    requires forall i :: 0 <= i < |r| ==> r[i] == Mul(c, a[i])
    ensures Dot(r, y) == Mul(c, Dot(a, y))
  {
    hide Dot, Mul;
    var zero := Constant(|a|, 0.0);
    DotSymmetric(zero, y);
    DotZero(y, zero);
    DotAddMultiple(zero, c, a, r, y);
  }

  lemma PositiveSquare(d: real)
    requires d != 0.0
    ensures Mul(d, d) > 0.0
  {
    if d > 0.0 { PositiveProduct(d, d); } else { PositiveProduct(-d, -d); }
    assert Mul(-d, -d) == Mul(d, d);
  }

  lemma PositiveProduct(x: real, y: real)
    requires x > 0.0 && y > 0.0
    ensures Mul(x, y) > 0.0
  {
  }

  lemma NonzeroFactor(x: real, y: real)
    requires x != 0.0
    ensures Mul(x, y) == 0.0 <==> y == 0.0
  {
  }

  /** The product with a unit row picks out one coordinate. */
  lemma {:induction false} DotUnit(row: seq<real>, y: seq<real>, k: nat)
    requires |row| == |y| && k < |row|
    requires forall i :: 0 <= i < |row| ==> row[i] == if i == k then 1.0 else 0.0
    ensures Dot(row, y) == y[k]
  {
    var zero := row[k := 0.0];
    DotSymmetric(row, y);
    DotZero(y, zero);
    DotUpdate(y, zero, k, 1.0);
    assert zero[k := 1.0] == row;
  }

  /** What is left of one after k halvings. */
  function Halving(k: nat): real
  {
    if k == 0 then 1.0 else Halving(k - 1) / 2.0
  }

  /** It is positive, and at most one in k + 1. */
  lemma {:induction false} HalvingBounds(k: nat)
    ensures 0.0 < Halving(k) <= 1.0
    ensures Halving(k) * (k + 1) as real <= 1.0
  {
    if k > 0 {
      HalvingBounds(k - 1);
      assert Halving(k) * (k + 1) as real == Halving(k - 1) * k as real - Halving(k) * (k - 1) as real;
      assert Halving(k) * (k - 1) as real >= 0.0;
    }
  }

  lemma {:induction false} HalvingDecreases(j: nat, k: nat)
    requires j <= k
    ensures Halving(k) <= Halving(j)
  {
    if j < k {
      HalvingBounds(k - 1);
      HalvingDecreases(j, k - 1);
    }
  }

  /** Enough halvings make any multiple smaller than any positive bound. */
  lemma HalvingVanishes(size: real, bound: real) returns (k: nat)
    requires size >= 0.0 && bound > 0.0
    ensures forall j: nat :: j >= k ==> Mul(Halving(j), size) < bound
  {
    var quotient := size / bound;
    assert quotient * bound == size;
    k := quotient.Floor;
    forall j: nat | j >= k
      ensures Mul(Halving(j), size) < bound
    {
      HalvingBounds(j);
      Product(quotient, (j + 1) as real, bound);
      Shrinks(Halving(j), (j + 1) as real, size, bound);
    }
  }

  lemma Product(x: real, y: real, bound: real)
    requires x < y && bound > 0.0
    ensures x * bound < y * bound
  {
  }

  lemma Shrinks(h: real, n: real, size: real, bound: real)
    requires h > 0.0 && h * n <= 1.0 && size < n * bound && bound > 0.0
    ensures Mul(h, size) < bound
  {
    assert h * size < h * (n * bound);
    assert h * (n * bound) == (h * n) * bound;
    assert (1.0 - h * n) * bound >= 0.0;
  }

  /** A multiple of a row. */
  function Scaled(c: real, xs: seq<real>): (r: seq<real>)
    ensures |r| == |xs| && forall i :: 0 <= i < |xs| ==> r[i] == Mul(c, xs[i])
  {
    seq(|xs|, i requires 0 <= i < |xs| => Mul(c, xs[i]))
  }
}
