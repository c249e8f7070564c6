/** Gauss-Jordan elimination with partial pivoting, in exact arithmetic. */
module LinearSystem {
  // Rows have size n + 1, so a row times the homogeneous vector x + [-1.0] states an
  // equation and times x + [0.0] states membership in the kernel.

  import opened RealVectors
  import opened Results

  type Row = seq<real>
  type Matrix = seq<Row>

  predicate Rectangular(rows: Matrix, width: nat)
  {
    forall i :: 0 <= i < |rows| ==> |rows[i]| == width
  }

  predicate Square(matrix: Matrix) { Rectangular(matrix, |matrix|) }

  /** Every row of the augmented matrix is orthogonal to y. */
  ghost predicate Kills(rows: Matrix, y: Row)
    requires Rectangular(rows, |y|)
  {
    forall i :: 0 <= i < |rows| ==> Dot(rows[i], y) == 0.0
  }

  /** x solves matrix * x == values. */
  ghost predicate Solves(matrix: Matrix, values: Row, x: Row)
    requires Rectangular(matrix, |x|) && |matrix| == |values|
  {
    forall i :: 0 <= i < |matrix| ==> Dot(matrix[i], x) == values[i]
  }

  function Apply(m: Matrix, x: Row): (r: Row)
    requires Rectangular(m, |x|)
    ensures |r| == |m| && forall i :: 0 <= i < |m| ==> r[i] == Dot(m[i], x)
  {
    seq(|m|, i requires 0 <= i < |m| => Dot(m[i], x))
  }

  lemma SameEntries(a: Matrix, b: Matrix)
    requires |a| == |b| && Square(a) && Square(b)
    requires forall i, j :: 0 <= i < |a| && 0 <= j < |a| ==> a[i][j] == b[i][j]
    ensures a == b
  {
    forall i | 0 <= i < |a| ensures a[i] == b[i] {}
  }

  ghost predicate IsZero(x: Row)
  {
    forall i :: 0 <= i < |x| ==> x[i] == 0.0
  }

  /** Only the zero vector is sent to zero. */
  ghost predicate Injective(matrix: Matrix)
    requires Square(matrix)
  {
    forall x :: |x| == |matrix| && Solves(matrix, Constant(|x|, 0.0), x) ==> IsZero(x)
  }

  /** Two augmented matrices with the same equations and the same kernel. */
  ghost predicate SameSolutions(a: Matrix, b: Matrix, width: nat)
    requires Rectangular(a, width) && Rectangular(b, width)
  {
    forall y :: |y| == width ==> (Kills(a, y) <==> Kills(b, y))
  }

  /** The first columns are already those of the identity. */
  ghost predicate Reduced(rows: Matrix, columns: nat)
  {
    forall r, c :: 0 <= r < |rows| && 0 <= c < columns && c < |rows[r]| ==>
      rows[r][c] == if r == c then 1.0 else 0.0
  }

  function Augment(matrix: Matrix, values: Row): (rows: Matrix)
    requires |matrix| == |values|
    ensures |rows| == |matrix| && forall i :: 0 <= i < |rows| ==> rows[i] == matrix[i] + [values[i]]
  {
    seq(|matrix|, i requires 0 <= i < |matrix| => matrix[i] + [values[i]])
  }

  function Abs(x: real): real { if x < 0.0 then -x else x }

  // The row operations.

  /** row / divisor from a column on, as the inner loop writes it. */
  method DivideTail(row: Row, column: nat, divisor: real) returns (r: Row)
    requires column <= |row| && divisor != 0.0
    ensures |r| == |row|
    ensures forall j :: 0 <= j < |row| ==> r[j] == if j < column then row[j] else row[j] / divisor
  {
    r := row;
    for offset := column to |row|
      invariant |r| == |row|
      invariant forall j :: 0 <= j < |row| ==> r[j] == if column <= j < offset then row[j] / divisor else row[j]
    {
      r := r[offset := r[offset] / divisor];
    }
  }

  /** row - factor * pivot from a column on. */
  method SubtractTail(row: Row, column: nat, factor: real, pivot: Row) returns (r: Row)
    requires column <= |row| == |pivot|
    ensures |r| == |row|
    ensures forall j :: 0 <= j < |row| ==> r[j] == if j < column then row[j] else row[j] - Mul(factor, pivot[j])
  {
    r := row;
    for offset := column to |row|
      invariant |r| == |row|
      invariant forall j :: 0 <= j < |row| ==> r[j] == if column <= j < offset then row[j] - Mul(factor, pivot[j]) else row[j]
    {
      r := r[offset := r[offset] - factor * pivot[offset]];
    }
  }

  /** The first row from start on whose entry in the column is largest in size. */
  method LargestPivot(rows: Matrix, column: nat, start: nat) returns (pivot: nat)
    requires start < |rows| && forall i :: 0 <= i < |rows| ==> column < |rows[i]|
    ensures start <= pivot < |rows|
    ensures forall i :: start <= i < |rows| ==> Abs(rows[i][column]) <= Abs(rows[pivot][column])
    ensures forall i :: start <= i < pivot ==> Abs(rows[i][column]) < Abs(rows[pivot][column])
  {
    pivot := start;
    for row := start + 1 to |rows|
      invariant start <= pivot < row
      invariant forall i :: start <= i < row ==> Abs(rows[i][column]) <= Abs(rows[pivot][column])
      invariant forall i :: start <= i < pivot ==> Abs(rows[i][column]) < Abs(rows[pivot][column])
    {
      if Abs(rows[row][column]) > Abs(rows[pivot][column]) {
        pivot := row;
      }
    }
  }

  lemma SwapKeepsSolutions(a: Matrix, width: nat, i: nat, j: nat)
    requires Rectangular(a, width) && i < |a| && j < |a|
    ensures Rectangular(a[i := a[j]][j := a[i]], width)
    ensures SameSolutions(a, a[i := a[j]][j := a[i]], width)
  {
    var b := a[i := a[j]][j := a[i]];
    assert forall k :: 0 <= k < |a| ==> b[k] == a[if k == i then j else if k == j then i else k];
    assert forall k :: 0 <= k < |a| ==> a[k] == b[if k == i then j else if k == j then i else k];
    hide Dot;
  }

  /** A row may be replaced by any row that y also kills. */
  lemma ReplaceRow(a: Matrix, y: Row, i: nat, row: Row)
    requires Rectangular(a, |y|) && i < |a| && |row| == |y|
    requires Kills(a, y) && Dot(row, y) == 0.0
    ensures Kills(a[i := row], y)
  {
    hide Dot;
    var b := a[i := row];
    forall k | 0 <= k < |a|
      ensures Dot(b[k], y) == 0.0
    {
      if k != i { assert b[k] == a[k]; }
    }
  }

  lemma ScaleKeepsSolutions(a: Matrix, width: nat, i: nat, row: Row, divisor: real)
    requires Rectangular(a, width) && i < |a| && |row| == width && divisor != 0.0
    requires forall j :: 0 <= j < width ==> a[i][j] == Mul(divisor, row[j])
    ensures SameSolutions(a, a[i := row], width)
  {
    hide Dot, Mul;
    var b := a[i := row];
    assert b[i := a[i]] == a;
    forall y: Row | |y| == width
      ensures Kills(a, y) <==> Kills(b, y)
    {
      DotScale(row, divisor, a[i], y);
      NonzeroFactor(divisor, Dot(row, y));
      if Kills(a, y) { ReplaceRow(a, y, i, row); }
      if Kills(b, y) { assert Dot(b[i], y) == 0.0; ReplaceRow(b, y, i, a[i]); }
    }
  }

  lemma SubtractKeepsSolutions(a: Matrix, width: nat, i: nat, p: nat, row: Row, factor: real)
    requires Rectangular(a, width) && i < |a| && p < |a| && p != i && |row| == width
    requires forall j :: 0 <= j < width ==> row[j] == a[i][j] + Mul(-factor, a[p][j])
    ensures SameSolutions(a, a[i := row], width)
  {
    hide Dot, Mul;
    var b := a[i := row];
    assert b[i := a[i]] == a;
    forall y: Row | |y| == width
      ensures Kills(a, y) <==> Kills(b, y)
    {
      DotAddMultiple(a[i], -factor, a[p], row, y);
      MulUnits(-factor);
      if Kills(a, y) { assert Dot(a[p], y) == 0.0; ReplaceRow(a, y, i, row); }
      if Kills(b, y) {
        assert Dot(b[p], y) == 0.0 && b[p] == a[p];
        assert Dot(b[i], y) == 0.0;
        ReplaceRow(b, y, i, a[i]);
      }
    }
  }

  lemma SameAsItself(a: Matrix, width: nat)
    requires Rectangular(a, width)
    ensures SameSolutions(a, a, width)
  {
  }

  lemma SolutionsTransitive(a: Matrix, b: Matrix, c: Matrix, width: nat)
    requires Rectangular(a, width) && Rectangular(b, width) && Rectangular(c, width)
    requires SameSolutions(a, b, width) && SameSolutions(b, c, width)
    ensures SameSolutions(a, c, width)
  {
    hide Kills;
  }

  // Reading solutions off an augmented matrix.

  /** Orthogonality to x + [s] is the equation with values scaled by -s. */
  lemma AugmentedEquation(matrix: Matrix, values: Row, x: Row, s: real)
    requires Rectangular(matrix, |x|) && |matrix| == |values|
    ensures Kills(Augment(matrix, values), x + [s]) <==>
      forall i :: 0 <= i < |matrix| ==> Dot(matrix[i], x) + Mul(values[i], s) == 0.0
  {
    hide Dot, Mul;
    var rows := Augment(matrix, values);
    forall i | 0 <= i < |matrix|
      ensures Dot(rows[i], x + [s]) == Dot(matrix[i], x) + Mul(values[i], s)
    {
      DotAppend(matrix[i], x, values[i], s);
    }
  }

  lemma EquationAsVector(matrix: Matrix, values: Row, x: Row)
    requires Rectangular(matrix, |x|) && |matrix| == |values|
    ensures Kills(Augment(matrix, values), x + [-1.0]) <==> Solves(matrix, values, x)
    ensures Kills(Augment(matrix, values), x + [0.0]) <==> Solves(matrix, Constant(|matrix|, 0.0), x)
  {
    hide Dot, Kills;
    AugmentedEquation(matrix, values, x, -1.0);
    AugmentedEquation(matrix, values, x, 0.0);
  }

  /** A row that is a unit (or zero) row before column k, against a vector that stops at k. */
  lemma {:induction false} SparseDot(row: Row, y: Row, i: nat, k: nat)
    requires |row| == |y| && k < |row|
    requires forall c :: 0 <= c < k ==> row[c] == if i == c then 1.0 else 0.0
    requires forall c :: k < c < |y| ==> y[c] == 0.0
    ensures Dot(row, y) == (if i < k then y[i] else 0.0) + row[k] * y[k]
  {
    var m := |row| - 1;
    if m > k {
      SparseDot(row[..m], y[..m], i, k);
    } else if i < k {
      DotUnit(row[..k], y[..k], i);
    } else {
      DotSymmetric(row[..k], y[..k]);
      DotZero(y[..k], row[..k]);
    }
  }

  /** A column without a pivot yields a nonzero vector that every row kills. */
  lemma KernelVector(rows: Matrix, n: nat, k: nat) returns (x: Row)
    requires |rows| == n && Rectangular(rows, n + 1) && k < n
    requires Reduced(rows, k) && forall i :: k <= i < n ==> rows[i][k] == 0.0
    ensures |x| == n && x[k] == 1.0 && Kills(rows, x + [0.0])
  {
    hide Dot;
    x := seq(n, j requires 0 <= j < n => if j < k then -rows[j][k] else if j == k then 1.0 else 0.0);
    forall i | 0 <= i < n
      ensures Dot(rows[i], x + [0.0]) == 0.0
    {
      SparseDot(rows[i], x + [0.0], i, k);
    }
  }

  lemma FullyReduced(rows: Matrix, n: nat, x: Row, s: real)
    requires |rows| == n == |x| && Rectangular(rows, n + 1) && Reduced(rows, n)
    ensures Kills(rows, x + [s]) <==> forall i :: 0 <= i < n ==> x[i] + Mul(rows[i][n], s) == 0.0
  {
    hide Dot, Mul;
    forall i | 0 <= i < n
      ensures Dot(rows[i], x + [s]) == x[i] + Mul(rows[i][n], s)
    {
      assert rows[i] == rows[i][..n] + [rows[i][n]];
      DotAppend(rows[i][..n], x, rows[i][n], s);
      DotUnit(rows[i][..n], x, i);
    }
  }

  // One column of the elimination.

  /** Left of the column the pivot row is zero, so dividing its tail divides all of it. */
  lemma DividedRow(row: Row, column: nat, r: Row)
    requires |r| == |row| && column < |row| && row[column] != 0.0
    requires forall j :: 0 <= j < column ==> row[j] == 0.0
    requires forall j :: 0 <= j < |row| ==> r[j] == if j < column then row[j] else row[j] / row[column]
    ensures forall j :: 0 <= j < |row| ==> row[j] == Mul(row[column], r[j])
    ensures r[column] == 1.0 && forall j :: 0 <= j < column ==> r[j] == 0.0
  {
    hide Mul;
    forall j | 0 <= j < |row|
      ensures row[j] == Mul(row[column], r[j])
    {
      Quotient(row[j], row[column]);
    }
    Quotient(row[column], row[column]);
    Quotient(0.0, row[column]);
  }

  lemma Quotient(x: real, d: real)
    requires d != 0.0
    ensures x == Mul(d, x / d) && d / d == 1.0 && 0.0 / d == 0.0
    ensures x == 0.0 ==> Mul(d, x) == 0.0
  {
  }

  /** For the same reason subtracting from the tail subtracts the whole row. */
  lemma SubtractedRow(row: Row, column: nat, pivot: Row, r: Row)
    requires |r| == |row| == |pivot| && column < |row| && pivot[column] == 1.0
    requires forall j :: 0 <= j < column ==> pivot[j] == 0.0
    requires forall j :: 0 <= j < |row| ==> r[j] == if j < column then row[j] else row[j] - Mul(row[column], pivot[j])
    ensures forall j :: 0 <= j < |row| ==> r[j] == row[j] + Mul(-row[column], pivot[j])
    ensures r[column] == 0.0 && forall j :: 0 <= j < column ==> r[j] == row[j]
  {
  }

  /** Swaps the pivot row into place and divides it, as the first half of the loop body does. */
  method PlacePivot(rows: Matrix, n: nat, column: nat, pivot: nat) returns (r: Matrix)
    requires |rows| == n && Rectangular(rows, n + 1) && Reduced(rows, column)
    requires column <= pivot < n && rows[pivot][column] != 0.0
    ensures |r| == n && Rectangular(r, n + 1) && Reduced(r, column)
    ensures r[column][column] == 1.0
    ensures SameSolutions(rows, r, n + 1)
  {
    var swapped := rows[column := rows[pivot]][pivot := rows[column]];
    SwapKeepsSolutions(rows, n + 1, column, pivot);
    var row := DivideTail(swapped[column], column, swapped[column][column]);
    DividedRow(swapped[column], column, row);
    r := swapped[column := row];
    ScaleKeepsSolutions(swapped, n + 1, column, row, swapped[column][column]);
    SolutionsTransitive(rows, swapped, r, n + 1);
  }

  /** Clears the column in every other row. */
  method ClearColumn(rows: Matrix, n: nat, column: nat) returns (r: Matrix)
    requires |rows| == n && Rectangular(rows, n + 1) && Reduced(rows, column)
    requires column < n && rows[column][column] == 1.0
    ensures |r| == n && Rectangular(r, n + 1) && Reduced(r, column + 1)
    ensures SameSolutions(rows, r, n + 1)
  {
    hide Dot, SameSolutions, Mul;
    SameAsItself(rows, n + 1);
    r := rows;
    for row := 0 to n
      invariant |r| == n && Rectangular(r, n + 1) && Reduced(r, column)
      invariant r[column] == rows[column]
      invariant forall i :: 0 <= i < row && i != column ==> r[i][column] == 0.0
      invariant SameSolutions(rows, r, n + 1)
    {
      if row != column {
        var factor := r[row][column];
        if factor != 0.0 {
          var reduced := SubtractTail(r[row], column, factor, r[column]);
          SubtractedRow(r[row], column, r[column], reduced);
          SubtractKeepsSolutions(r, n + 1, row, column, reduced, factor);
          SolutionsTransitive(rows, r, r[row := reduced], n + 1);
          r := r[row := reduced];
        }
      }
    }
  }

  /**
   The code's solver. A returned vector is the only solution. With an exact pivot
   test (tolerance zero) it returns one precisely for the injective matrices.
   */
  method Solve(matrix: Matrix, values: Row, tolerance: real) returns (result: Result<Row>)
    requires tolerance >= 0.0
    ensures result.Success? ==>
      && Square(matrix) && |values| == |matrix| == |result.value|
      && Solves(matrix, values, result.value)
      && (forall x :: |x| == |matrix| && Solves(matrix, values, x) ==> x == result.value)
      && Injective(matrix)
    ensures tolerance == 0.0 && Square(matrix) && |values| == |matrix| && Injective(matrix) ==> result.Success?
  {
    var n := |values|;
    if |matrix| != n || !Square(matrix) {
      return Failure("linear system dimensions are inconsistent");
    }
    var augmented := Augment(matrix, values);
    for column := 0 to n
      invariant |augmented| == n && Rectangular(augmented, n + 1) && Reduced(augmented, column)
      invariant SameSolutions(Augment(matrix, values), augmented, n + 1)
    {
      var pivot := LargestPivot(augmented, column, column);
      if Abs(augmented[pivot][column]) <= tolerance {
        if tolerance == 0.0 {
          NoPivot(matrix, values, augmented, column);
        }
        return Failure("observed-information matrix is singular");
      }
      var placed := PlacePivot(augmented, n, column, pivot);
      SolutionsTransitive(Augment(matrix, values), augmented, placed, n + 1);
      augmented := ClearColumn(placed, n, column);
      SolutionsTransitive(Augment(matrix, values), placed, augmented, n + 1);
    }
    result := Success(seq(n, row requires 0 <= row < n => augmented[row][n]));
    OnlySolution(matrix, values, augmented, result.value);
  }

  lemma NoPivot(matrix: Matrix, values: Row, rows: Matrix, column: nat)
    requires Square(matrix) && |rows| == |matrix| == |values| && column < |matrix|
    requires Rectangular(rows, |matrix| + 1) && Reduced(rows, column)
    requires SameSolutions(Augment(matrix, values), rows, |matrix| + 1)
    requires forall i :: column <= i < |rows| ==> rows[i][column] == 0.0
    ensures !Injective(matrix)
  {
    hide Dot, Kills, Solves;
    var x := KernelVector(rows, |matrix|, column);
    EquationAsVector(matrix, values, x);
    assert Kills(Augment(matrix, values), x + [0.0]);
    assert !IsZero(x);
  }

  lemma OnlySolution(matrix: Matrix, values: Row, rows: Matrix, solution: Row)
    requires Square(matrix) && |rows| == |matrix| == |values| == |solution|
    requires Rectangular(rows, |matrix| + 1) && Reduced(rows, |matrix|)
    requires SameSolutions(Augment(matrix, values), rows, |matrix| + 1)
    requires forall i :: 0 <= i < |rows| ==> solution[i] == rows[i][|matrix|]
    ensures Solves(matrix, values, solution) && Injective(matrix)
    ensures forall x :: |x| == |matrix| && Solves(matrix, values, x) ==> x == solution
  {
    hide Dot, Kills, Solves;
    var n := |matrix|;
    forall x: Row | |x| == n
      ensures Solves(matrix, values, x) <==> x == solution
      ensures Solves(matrix, Constant(n, 0.0), x) ==> IsZero(x)
    {
      EquationAsVector(matrix, values, x);
      FullyReduced(rows, n, x, -1.0);
      FullyReduced(rows, n, x, 0.0);
      assert Kills(Augment(matrix, values), x + [-1.0]) <==> Kills(rows, x + [-1.0]);
      assert Kills(Augment(matrix, values), x + [0.0]) <==> Kills(rows, x + [0.0]);
    }
  }
}
