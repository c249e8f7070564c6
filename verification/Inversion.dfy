/**
 The covariance matrix of a fit: the inverse of its information matrix, computed one
 column at a time and then made symmetric by averaging.
 */
module Inversion {
  import opened RealVectors
  import opened Results
  import opened LinearSystem

  function Unit(n: nat, k: nat): (u: Row)
    ensures |u| == n && forall i :: 0 <= i < n ==> u[i] == if i == k then 1.0 else 0.0
  {
    seq(n, i => if i == k then 1.0 else 0.0)
  }

  predicate Symmetric(m: Matrix)
    requires Square(m)
  {
    forall i, j :: 0 <= i < |m| && 0 <= j < |m| ==> m[i][j] == m[j][i]
  }

  function Column(m: Matrix, n: nat, j: nat): (c: Row)
    requires Rectangular(m, n) && j < n
    ensures |c| == |m| && forall i :: 0 <= i < |m| ==> c[i] == m[i][j]
  {
    seq(|m|, i requires 0 <= i < |m| => m[i][j])
  }

  function Transpose(m: Matrix, n: nat): (t: Matrix)
    requires Rectangular(m, n)
    ensures |t| == n && Rectangular(t, |m|) && forall j :: 0 <= j < n ==> t[j] == Column(m, n, j)
  {
    seq(n, j requires 0 <= j < n => Column(m, n, j))
  }

  /** One more row adds a multiple of it to every product with the transpose. */
  lemma TransposeStep(m: Matrix, y: Row, n: nat, j: nat)
    requires Rectangular(m, n) && |m| == |y| && m != [] && j < n
    ensures var k := |m| - 1;
      Dot(Column(m, n, j), y) == Dot(Column(m[..k], n, j), y[..k]) + Mul(y[k], m[k][j])
  {
    var k := |m| - 1;
    assert Column(m, n, j)[..k] == Column(m[..k], n, j);
    MulCommutative(y[k], m[k][j]);
  }

  /** Multiplying by a matrix on one side of a product is multiplying by its transpose on the other. */
  lemma {:induction false} Exchange(m: Matrix, x: Row, y: Row)
    requires Rectangular(m, |x|) && |m| == |y|
    ensures Dot(Apply(m, x), y) == Dot(Apply(Transpose(m, |x|), y), x)
  {
    var after := Apply(Transpose(m, |x|), y);
    if m == [] {
      DotSymmetric(after, x);
      DotZero(x, after);
    } else {
      var k := |m| - 1;
      Exchange(m[..k], x, y[..k]);
      LastProduct(m, x, y);
      hide Dot, Mul;
      forall j | 0 <= j < |x|
        ensures after[j] == Apply(Transpose(m[..k], |x|), y[..k])[j] + Mul(y[k], m[k][j])
      {
        TransposeStep(m, y, |x|, j);
      }
      DotAddMultiple(Apply(Transpose(m[..k], |x|), y[..k]), y[k], m[k], after, x);
    }
  }

  lemma LastProduct(m: Matrix, x: Row, y: Row)
    requires Rectangular(m, |x|) && |m| == |y| && m != []
    ensures var k := |m| - 1; Dot(Apply(m, x), y) == Dot(Apply(m[..k], x), y[..k]) + Mul(y[k], Dot(m[k], x))
  {
    var k := |m| - 1;
    hide Dot, Mul;
    assert Apply(m, x) == Apply(m[..k], x) + [Dot(m[k], x)];
    assert y == y[..k] + [y[k]];
    DotAppend(Apply(m[..k], x), y[..k], Dot(m[k], x), y[k]);
    MulCommutative(y[k], Dot(m[k], x));
  }

  lemma SymmetricExchange(m: Matrix, x: Row, y: Row)
    requires Square(m) && Symmetric(m) && |m| == |x| == |y|
    ensures Dot(Apply(m, x), y) == Dot(Apply(m, y), x)
  {
    Exchange(m, x, y);
    assert Transpose(m, |x|) == m by {
      forall j | 0 <= j < |m| ensures Transpose(m, |x|)[j] == m[j] {}
    }
  }

  /** Every column solves the system for its unit vector. */
  ghost predicate IsInverse(m: Matrix, r: Matrix)
    requires Square(m)
  {
    |r| == |m| && Square(r) && forall k :: 0 <= k < |m| ==> Solves(m, Unit(|m|, k), Column(r, |m|, k))
  }

  lemma SolvesIsApply(m: Matrix, values: Row, x: Row)
    requires Rectangular(m, |x|) && |m| == |values|
    ensures Solves(m, values, x) <==> Apply(m, x) == values
  {
  }

  /** The inverse of a symmetric matrix is symmetric. */
  lemma InverseIsSymmetric(m: Matrix, r: Matrix)
    requires Square(m) && Symmetric(m) && IsInverse(m, r)
    ensures Symmetric(r)
  {
    var n := |m|;
    forall i, j | 0 <= i < n && 0 <= j < n
      ensures r[i][j] == r[j][i]
    {
      var x, y := Column(r, n, i), Column(r, n, j);
      SolvesIsApply(m, Unit(n, i), x);
      SolvesIsApply(m, Unit(n, j), y);
      SymmetricExchange(m, x, y);
      DotUnit(Unit(n, i), y, i);
      DotUnit(Unit(n, j), x, j);
    }
  }

  /** An inverse undoes the matrix on every vector. */
  lemma InverseSolves(m: Matrix, r: Matrix, c: Row)
    requires Square(m) && Symmetric(m) && IsInverse(m, r) && |c| == |m|
    ensures Apply(m, Apply(r, c)) == c
  {
    var n := |m|;
    InverseIsSymmetric(m, r);
    var x := Apply(r, c);
    forall i | 0 <= i < n
      ensures Dot(m[i], x) == c[i]
    {
      // m[i] . (r c) == (r m[i]) . c, and r m[i] is the i-th unit vector.
      SymmetricExchange(r, c, m[i]);
      DotSymmetric(m[i], x);
      var u := Apply(r, m[i]);
      forall j | 0 <= j < n
        ensures u[j] == Unit(n, i)[j]
      {
        assert r[j] == Column(r, n, j);
        DotSymmetric(r[j], m[i]);
        SolvesIsApply(m, Unit(n, j), Column(r, n, j));
        assert Apply(m, Column(r, n, j))[i] == Unit(n, j)[i];
      }
      assert u == Unit(n, i);
      DotUnit(u, c, i);
    }
  }

  function Mean(x: real, y: real): real { (x + y) / 2.0 }

  lemma MeanLaws(x: real, y: real)
    ensures Mean(x, y) == Mean(y, x) && Mean(x, x) == x
  {
  }

  /** The entries above the diagonal that the averaging loops have visited. */
  predicate Visited(i: int, j: int, row: int, column: int)
  {
    i < j && (i < row || (i == row && j < column))
  }

  function PartAverage(m: Matrix, i: nat, j: nat, row: int, column: int): real
    requires Square(m) && i < |m| && j < |m|
  {
    if Visited(i, j, row, column) || Visited(j, i, row, column) then Mean(m[i][j], m[j][i]) else m[i][j]
  }

  ghost predicate PartlyAveraged(m: Matrix, r: Matrix, row: int, column: int)
    requires Square(m)
  {
    |r| == |m| && Square(r) &&
    forall i, j :: 0 <= i < |m| && 0 <= j < |m| ==>
      r[i][j] == PartAverage(m, i, j, row, column)
  }

  /** Each pair of mirrored entries is replaced by its mean. */
  method Symmetrise(m: Matrix) returns (r: Matrix)
    requires Square(m)
    ensures |r| == |m| && Square(r)
    ensures forall i, j :: 0 <= i < |m| && 0 <= j < |m| ==> r[i][j] == if i == j then m[i][j] else Mean(m[i][j], m[j][i])
  {
    r := m;
    for row := 0 to |m|
      invariant PartlyAveraged(m, r, row, row + 1)
    {
      for column := row + 1 to |m|
        invariant PartlyAveraged(m, r, row, column)
      {
        ghost var before := r;
        r := SetPair(r, row, column, Mean(r[row][column], r[column][row]));
        AverageOneMore(m, before, r, row, column);
      }
      AverageNextRow(m, r, row);
    }
  }

  lemma AverageOneMore(m: Matrix, r: Matrix, s: Matrix, row: nat, column: nat)
    requires Square(m) && PartlyAveraged(m, r, row, column) && row < column < |m|
    requires |s| == |m| && Square(s)
    requires forall i, j :: 0 <= i < |m| && 0 <= j < |m| ==>
      s[i][j] == if (i == row && j == column) || (i == column && j == row) then Mean(r[row][column], r[column][row]) else r[i][j]
    ensures PartlyAveraged(m, s, row, column + 1)
  {
    forall i, j | 0 <= i < |m| && 0 <= j < |m|
      ensures s[i][j] == PartAverage(m, i, j, row, column + 1)
    {
      MeanLaws(m[row][column], m[column][row]);
      assert r[i][j] == PartAverage(m, i, j, row, column);
      assert r[row][column] == PartAverage(m, row, column, row, column);
      assert r[column][row] == PartAverage(m, column, row, row, column);
    }
  }

  lemma AverageNextRow(m: Matrix, r: Matrix, row: nat)
    requires Square(m) && PartlyAveraged(m, r, row, |m|) && row < |m|
    ensures PartlyAveraged(m, r, row + 1, row + 2)
  {
    forall i, j | 0 <= i < |m| && 0 <= j < |m|
      ensures r[i][j] == PartAverage(m, i, j, row + 1, row + 2)
    {
      assert r[i][j] == PartAverage(m, i, j, row, |m|);
    }
  }

  method SetPair(m: Matrix, i: nat, j: nat, x: real) returns (r: Matrix)
    requires Square(m) && i < j < |m|
    ensures |r| == |m| && Square(r)
    ensures forall a, b :: 0 <= a < |m| && 0 <= b < |m| ==>
      r[a][b] == if (a == i && b == j) || (a == j && b == i) then x else m[a][b]
  {
    r := m[i := m[i][j := x]];
    r := r[j := r[j][i := x]];
  }

  /**
   The code's inverse. With the exact pivot test it exists for every injective matrix,
   and for a symmetric one the averaging changes nothing: the result is the inverse.
   */
  method Inverse(matrix: Matrix, tolerance: real) returns (result: Result<Matrix>)
    requires tolerance >= 0.0
    ensures result.Success? ==> Square(matrix) && |result.value| == |matrix| && Square(result.value) && Symmetric(result.value)
    ensures result.Success? && matrix != [] ==> Injective(matrix)
    ensures result.Success? && Symmetric(matrix) ==> IsInverse(matrix, result.value)
    ensures tolerance == 0.0 && Square(matrix) && Injective(matrix) ==> result.Success?
  {
    hide Solves, Injective;
    var n := |matrix|;
    var columns: Matrix := [];
    for column := 0 to n
      invariant |columns| == column && Rectangular(columns, n)
      invariant column > 0 ==> Square(matrix) && Injective(matrix)
      invariant forall k :: 0 <= k < column ==> Square(matrix) && Solves(matrix, Unit(n, k), columns[k])
    {
      var unit := Constant(n, 0.0)[column := 1.0];
      assert unit == Unit(n, column);
      var solution := Solve(matrix, unit, tolerance);
      if solution.Failure? {
        return Failure(solution.error);
      }
      columns := columns + [solution.value];
    }
    var inverse := Transpose(columns, n);
    forall k | 0 <= k < n
      ensures Column(inverse, n, k) == columns[k]
    {
      forall i | 0 <= i < n ensures Column(inverse, n, k)[i] == columns[k][i] {}
    }
    var averaged := Symmetrise(inverse);
    if Symmetric(matrix) {
      assert IsInverse(matrix, inverse);
      InverseIsSymmetric(matrix, inverse);
      forall i, j | 0 <= i < n && 0 <= j < n ensures averaged[i][j] == inverse[i][j] {
        MeanLaws(inverse[i][j], inverse[j][i]);
      }
      SameEntries(averaged, inverse);
    }
    forall i, j | 0 <= i < n && 0 <= j < n ensures averaged[i][j] == averaged[j][i] {
      MeanLaws(inverse[i][j], inverse[j][i]);
    }
    result := Success(averaged);
  }
}
