/**
 * Sums, vectors and matrices over `real`, the arithmetic every component of
 * the t-SNE engine is built from. A matrix is a sequence of rows.
 */
module Linalg {

  type Matrix = seq<seq<real>>

  /** Sum of a vector, accumulated from the front. */
  function Sum(s: seq<real>): real
  {
    if |s| == 0 then 0.0 else Sum(s[..|s| - 1]) + s[|s| - 1]
  }

  lemma {:induction false} SumOfZeros(a: seq<real>)
    requires forall k :: 0 <= k < |a| ==> a[k] == 0.0
    ensures Sum(a) == 0.0
  {
    if |a| > 0 {
      SumOfZeros(a[..|a| - 1]);
    }
  }

  lemma {:induction false} SumPointwiseAdd(a: seq<real>, b: seq<real>, c: seq<real>)
    requires |a| == |b| == |c|
    requires forall k :: 0 <= k < |c| ==> c[k] == a[k] + b[k]
    ensures Sum(c) == Sum(a) + Sum(b)
  {
    if |c| > 0 {
      var n := |c| - 1;
      SumPointwiseAdd(a[..n], b[..n], c[..n]);
    }
  }

  lemma {:induction false} SumPointwiseScale(a: seq<real>, b: seq<real>, f: real)
    requires |a| == |b|
    requires forall k :: 0 <= k < |b| ==> b[k] == f * a[k]
    ensures Sum(b) == f * Sum(a)
  {
    if |b| > 0 {
      var n := |b| - 1;
      SumPointwiseScale(a[..n], b[..n], f);
    }
  }

  lemma {:induction false} SumNonneg(a: seq<real>)
    requires forall k :: 0 <= k < |a| ==> a[k] >= 0.0
    ensures Sum(a) >= 0.0
  {
    if |a| > 0 {
      SumNonneg(a[..|a| - 1]);
    }
  }

  /** A non-negative vector with one positive entry has a positive sum. */
  lemma {:induction false} SumPositive(a: seq<real>, j: nat)
    requires j < |a|
    requires forall k :: 0 <= k < |a| ==> a[k] >= 0.0
    requires a[j] > 0.0
    ensures Sum(a) > 0.0
  {
    var n := |a| - 1;
    if j == n {
      SumNonneg(a[..n]);
    } else {
      SumPositive(a[..n], j);
    }
  }

  /** Dividing every entry by a non-zero total gives a vector summing to one. */
  lemma SumNormalised(a: seq<real>, b: seq<real>, total: real)
    requires |a| == |b| && total == Sum(a) && total != 0.0
    requires forall k :: 0 <= k < |b| ==> b[k] == a[k] / total
    ensures Sum(b) == 1.0
  {
    forall k | 0 <= k < |a| ensures a[k] == total * b[k] {
      MulDiv(a[k], total);
    }
    SumPointwiseScale(b, a, total);
    var sa, sb := Sum(a), Sum(b);
    CancelFactor(sb, total, sa);
  }

  lemma MulDiv(x: real, f: real)
    requires f != 0.0
    ensures f * (x / f) == x
  {
  }

  lemma CancelFactor(x: real, f: real, y: real)
    requires f != 0.0 && y == f * x && y == f
    ensures x == 1.0
  {
  }

  // ----- vectors -----

  /** Inner product: one entry of the Gram matrix `x x^T`. */
  function Dot(a: seq<real>, b: seq<real>): real
    requires |a| == |b|
  {
    Sum(seq(|a|, k requires 0 <= k < |a| => a[k] * b[k]))
  }

  /** Squared norm: the sum of the squares of a row. */
  function SqNorm(a: seq<real>): real
  {
    Sum(seq(|a|, k requires 0 <= k < |a| => a[k] * a[k]))
  }

  /** Reference definition of the squared Euclidean distance. */
  function SqDist(a: seq<real>, b: seq<real>): real
    requires |a| == |b|
  {
    Sum(seq(|a|, k requires 0 <= k < |a| => (a[k] - b[k]) * (a[k] - b[k])))
  }

  // ----- matrices -----

  ghost predicate IsMatrix(m: Matrix, rows: nat, cols: nat)
  {
    |m| == rows && forall i :: 0 <= i < rows ==> |m[i]| == cols
  }

  /** All rows have the same length, as in an `Array2`. */
  ghost predicate Rectangular(m: Matrix)
  {
    forall i :: 0 <= i < |m| ==> |m[i]| == |m[0]|
  }

  ghost predicate IsSquare(m: Matrix)
  {
    IsMatrix(m, |m|, |m|)
  }

  ghost predicate Symmetric(m: Matrix)
  {
    IsSquare(m) && forall i, j :: 0 <= i < |m| && 0 <= j < |m| ==> m[i][j] == m[j][i]
  }

  ghost predicate ZeroDiagonal(m: Matrix)
  {
    IsSquare(m) && forall i :: 0 <= i < |m| ==> m[i][i] == 0.0
  }

  ghost predicate Nonneg(m: Matrix)
  {
    forall i, j :: 0 <= i < |m| && 0 <= j < |m[i]| ==> m[i][j] >= 0.0
  }

  function Zeros(rows: nat, cols: nat): (z: Matrix)
    ensures IsMatrix(z, rows, cols)
    ensures forall i, j :: 0 <= i < rows && 0 <= j < cols ==> z[i][j] == 0.0
  {
    seq(rows, _ => seq(cols, _ => 0.0))
  }

  /** Row totals: the sum across each row. */
  function RowSums(m: Matrix): seq<real>
  {
    seq(|m|, i requires 0 <= i < |m| => Sum(m[i]))
  }

  /** Grand total of every entry of a matrix. */
  function MatSum(m: Matrix): real
  {
    Sum(RowSums(m))
  }

  /** Column `c`, whose sum is the total down the rows. */
  function Column(m: Matrix, c: nat): seq<real>
    requires forall i :: 0 <= i < |m| ==> c < |m[i]|
  {
    seq(|m|, i requires 0 <= i < |m| => m[i][c])
  }

  function Transpose(m: Matrix, cols: nat): (t: Matrix)
    requires IsMatrix(m, |m|, cols)
    ensures IsMatrix(t, cols, |m|)
    ensures forall i, j :: 0 <= i < cols && 0 <= j < |m| ==> t[i][j] == m[j][i]
  {
    seq(cols, j requires 0 <= j < cols => seq(|m|, i requires 0 <= i < |m| => m[i][j]))
  }

  /** Element-wise `a + b`. */
  function MatAdd(a: Matrix, b: Matrix): (r: Matrix)
    requires |a| == |b| && forall i :: 0 <= i < |a| ==> |a[i]| == |b[i]|
    ensures |r| == |a| && forall i :: 0 <= i < |a| ==> |r[i]| == |a[i]|
    ensures forall i, j :: 0 <= i < |a| && 0 <= j < |a[i]| ==> r[i][j] == a[i][j] + b[i][j]
  {
    seq(|a|, i requires 0 <= i < |a| => seq(|a[i]|, j requires 0 <= j < |a[i]| => a[i][j] + b[i][j]))
  }

  /** Every entry multiplied by `f`, as in exaggeration or the momentum term. */
  function MatScale(a: Matrix, f: real): (r: Matrix)
    ensures |r| == |a| && forall i :: 0 <= i < |a| ==> |r[i]| == |a[i]|
    ensures forall i, j :: 0 <= i < |a| && 0 <= j < |a[i]| ==> r[i][j] == a[i][j] * f
  {
    seq(|a|, i requires 0 <= i < |a| => seq(|a[i]|, j requires 0 <= j < |a[i]| => a[i][j] * f))
  }

  /** Every entry divided by `f`, as in undoing exaggeration or normalising. */
  function MatDiv(a: Matrix, f: real): (r: Matrix)
    requires f != 0.0
    ensures |r| == |a| && forall i :: 0 <= i < |a| ==> |r[i]| == |a[i]|
    ensures forall i, j :: 0 <= i < |a| && 0 <= j < |a[i]| ==> r[i][j] == a[i][j] / f
  {
    seq(|a|, i requires 0 <= i < |a| => seq(|a[i]|, j requires 0 <= j < |a[i]| => a[i][j] / f))
  }

  // ----- facts about matrix totals -----

  /** Summing by rows or by columns gives the same grand total. */
  lemma {:induction false} MatSumTranspose(m: Matrix, cols: nat)
    requires IsMatrix(m, |m|, cols)
    ensures MatSum(Transpose(m, cols)) == MatSum(m)
  {
    var t := Transpose(m, cols);
    if |m| == 0 {
      forall j | 0 <= j < cols ensures RowSums(t)[j] == 0.0 {
        assert t[j] == [];
      }
      SumOfZeros(RowSums(t));
    } else {
      var n := |m| - 1;
      var m' := m[..n];
      MatSumTranspose(m', cols);
      forall j | 0 <= j < cols
        ensures RowSums(t)[j] == RowSums(Transpose(m', cols))[j] + m[n][j]
      {
        ColumnSumSplit(m, cols, j);
      }
      SumPointwiseAdd(RowSums(Transpose(m', cols)), m[n], RowSums(t));
      assert RowSums(m)[..n] == RowSums(m');
    }
  }

  /** A column total is the total without the last row, plus the last row's entry. */
  lemma ColumnSumSplit(m: Matrix, cols: nat, j: nat)
    requires IsMatrix(m, |m|, cols) && |m| > 0 && j < cols
    ensures Sum(Transpose(m, cols)[j])
         == Sum(Transpose(m[..|m| - 1], cols)[j]) + m[|m| - 1][j]
  {
    var n := |m| - 1;
    assert Transpose(m, cols)[j][..n] == Transpose(m[..n], cols)[j];
  }

  /** The grand total of an antisymmetric matrix is zero. */
  lemma AntisymmetricSumZero(a: Matrix)
    requires IsSquare(a)
    requires forall i, j :: 0 <= i < |a| && 0 <= j < |a| ==> a[i][j] == -a[j][i]
    ensures MatSum(a) == 0.0
  {
    var n := |a|;
    var t := Transpose(a, n);
    MatSumTranspose(a, n);
    forall i | 0 <= i < n ensures RowSums(t)[i] == -1.0 * RowSums(a)[i] {
      SumPointwiseScale(a[i], t[i], -1.0);
    }
    SumPointwiseScale(RowSums(a), RowSums(t), -1.0);
  }

  /** Adding a matrix to its transpose doubles the grand total. */
  lemma MatSumPlusTranspose(m: Matrix)
    requires IsSquare(m)
    ensures MatSum(MatAdd(m, Transpose(m, |m|))) == 2.0 * MatSum(m)
  {
    var t := Transpose(m, |m|);
    var s := MatAdd(m, t);
    MatSumTranspose(m, |m|);
    forall i | 0 <= i < |m| ensures RowSums(s)[i] == RowSums(m)[i] + RowSums(t)[i] {
      SumPointwiseAdd(m[i], t[i], s[i]);
    }
    SumPointwiseAdd(RowSums(m), RowSums(t), RowSums(s));
  }

  /** Dividing every entry by `f` divides the grand total by `f`. */
  lemma MatSumDiv(m: Matrix, f: real)
    requires f != 0.0
    ensures MatSum(MatDiv(m, f)) == MatSum(m) / f
  {
    var d := MatDiv(m, f);
    forall i | 0 <= i < |m| ensures RowSums(m)[i] == f * RowSums(d)[i] {
      RowTimes(m[i], d[i], f);
    }
    SumPointwiseScale(RowSums(d), RowSums(m), f);
    var total, scaled := MatSum(m), MatSum(d);
    QuotientOf(total, f, scaled);
  }

  lemma RowTimes(a: seq<real>, b: seq<real>, f: real)
    requires f != 0.0 && |a| == |b|
    requires forall j :: 0 <= j < |a| ==> b[j] == a[j] / f
    ensures Sum(a) == f * Sum(b)
  {
    forall j | 0 <= j < |a| ensures a[j] == f * b[j] {
      MulDiv(a[j], f);
    }
    SumPointwiseScale(b, a, f);
  }

  lemma QuotientOf(x: real, f: real, y: real)
    requires f != 0.0 && x == f * y
    ensures y == x / f
  {
  }

  /** A matrix whose rows each sum to one has grand total equal to its row count. */
  lemma MatSumOfStochastic(m: Matrix)
    requires forall i :: 0 <= i < |m| ==> Sum(m[i]) == 1.0
    ensures MatSum(m) == |m| as real
  {
    SumOfConstant(RowSums(m), 1.0);
  }

  lemma {:induction false} SumOfConstant(r: seq<real>, c: real)
    requires forall i :: 0 <= i < |r| ==> r[i] == c
    ensures Sum(r) == |r| as real * c
  {
    if |r| > 0 {
      SumOfConstant(r[..|r| - 1], c);
    }
  }

  /** Column sums are additive. */
  lemma ColumnAdd(a: Matrix, b: Matrix, c: nat)
    requires |a| == |b| && forall i :: 0 <= i < |a| ==> |a[i]| == |b[i]| && c < |a[i]|
    ensures Sum(Column(MatAdd(a, b), c)) == Sum(Column(a, c)) + Sum(Column(b, c))
  {
    SumPointwiseAdd(Column(a, c), Column(b, c), Column(MatAdd(a, b), c));
  }

  /** Column sums scale with the matrix. */
  lemma ColumnScale(a: Matrix, f: real, c: nat)
    requires forall i :: 0 <= i < |a| ==> c < |a[i]|
    ensures Sum(Column(MatScale(a, f), c)) == f * Sum(Column(a, c))
  {
    SumPointwiseScale(Column(a, c), Column(MatScale(a, f), c), f);
  }
}
