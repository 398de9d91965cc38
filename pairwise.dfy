/**
 * `cal_pairwise_dist`: the squared Euclidean distance matrix of the rows of
 * a matrix, computed through the identity
 * `D[i][j] = ||x_i||^2 + ||x_j||^2 - 2 x_i . x_j`.
 */
module PairwiseDistance {
  import opened Linalg

  /** Each squared difference splits into the square terms and the cross term. */
  lemma NormBroadcastIdentity(a: seq<real>, b: seq<real>)
    requires |a| == |b|
    ensures -2.0 * Dot(a, b) + SqNorm(a) + SqNorm(b) == SqDist(a, b)
  {
    var n := |a|;
    var aa := seq(n, k requires 0 <= k < n => a[k] * a[k]);
    var bb := seq(n, k requires 0 <= k < n => b[k] * b[k]);
    var ab := seq(n, k requires 0 <= k < n => a[k] * b[k]);
    var cross := seq(n, k requires 0 <= k < n => -2.0 * ab[k]);
    var norms := seq(n, k requires 0 <= k < n => aa[k] + bb[k]);
    var sq := seq(n, k requires 0 <= k < n => (a[k] - b[k]) * (a[k] - b[k]));
    SumPointwiseScale(ab, cross, -2.0);
    SumPointwiseAdd(aa, bb, norms);
    forall k | 0 <= k < n ensures sq[k] == cross[k] + norms[k] {
      SquareOfDifference(a[k], b[k]);
    }
    SumPointwiseAdd(cross, norms, sq);
  }

  lemma SquareOfDifference(x: real, y: real)
    ensures (x - y) * (x - y) == -2.0 * (x * y) + (x * x + y * y)
  {
  }

  lemma SqDistNonneg(a: seq<real>, b: seq<real>)
    requires |a| == |b|
    ensures SqDist(a, b) >= 0.0
  {
    var n := |a|;
    var sq := seq(n, k requires 0 <= k < n => (a[k] - b[k]) * (a[k] - b[k]));
    forall k | 0 <= k < n ensures sq[k] >= 0.0 {
      SquareNonneg(a[k] - b[k]);
    }
    SumNonneg(sq);
  }

  lemma SquareNonneg(x: real)
    ensures x * x >= 0.0
  {
  }

  lemma SqDistSelf(a: seq<real>)
    ensures SqDist(a, a) == 0.0
  {
    SumOfZeros(seq(|a|, k requires 0 <= k < |a| => (a[k] - a[k]) * (a[k] - a[k])));
  }

  lemma SqDistSymmetric(a: seq<real>, b: seq<real>)
    requires |a| == |b|
    ensures SqDist(a, b) == SqDist(b, a)
  {
    var n := |a|;
    assert seq(n, k requires 0 <= k < n => (a[k] - b[k]) * (a[k] - b[k]))
        == seq(n, k requires 0 <= k < n => (b[k] - a[k]) * (b[k] - a[k]));
  }

  /**
   * `cal_pairwise_dist`: minus twice the Gram matrix, plus the squared row
   * norms added once along the rows and once along the columns.
   * Every entry is the squared distance between two rows, so the matrix is
   * symmetric, non-negative and has a zero diagonal.
   */
  function CalPairwiseDist(x: Matrix): (dist: Matrix)
    requires Rectangular(x)
    ensures IsSquare(dist) && |dist| == |x|
    ensures forall i, j :: 0 <= i < |x| && 0 <= j < |x| ==> dist[i][j] == SqDist(x[i], x[j])
    ensures Symmetric(dist) && ZeroDiagonal(dist) && Nonneg(dist)
  {
    var n := |x|;
    var sumX := seq(n, i requires 0 <= i < n => SqNorm(x[i]));
    var dist := seq(n, i requires 0 <= i < n =>
      seq(n, j requires 0 <= j < n => -2.0 * Dot(x[i], x[j]) + sumX[i] + sumX[j]));
    PairwiseFacts(x, dist);
    dist
  }

  lemma PairwiseFacts(x: Matrix, dist: Matrix)
    requires Rectangular(x) && IsSquare(dist) && |dist| == |x|
    requires forall i, j :: 0 <= i < |x| && 0 <= j < |x| ==>
      dist[i][j] == -2.0 * Dot(x[i], x[j]) + SqNorm(x[i]) + SqNorm(x[j])
    ensures forall i, j :: 0 <= i < |x| && 0 <= j < |x| ==> dist[i][j] == SqDist(x[i], x[j])
    ensures Symmetric(dist) && ZeroDiagonal(dist) && Nonneg(dist)
  {
    forall i, j | 0 <= i < |x| && 0 <= j < |x|
      ensures dist[i][j] == SqDist(x[i], x[j])
    {
      NormBroadcastIdentity(x[i], x[j]);
    }
    forall i, j | 0 <= i < |x| && 0 <= j < |x| ensures dist[i][j] == dist[j][i] {
      SqDistSymmetric(x[i], x[j]);
    }
    forall i | 0 <= i < |x| ensures dist[i][i] == 0.0 {
      SqDistSelf(x[i]);
    }
    forall i, j | 0 <= i < |dist| && 0 <= j < |dist[i]| ensures dist[i][j] >= 0.0 {
      NormBroadcastIdentity(x[i], x[j]);
      SqDistNonneg(x[i], x[j]);
    }
  }

  /** The unit test `test_cal_pairwise`: three collinear, evenly spaced points. */
  lemma PairwiseFixture(x: Matrix)
    requires x == [[0.0, 1.0, 2.0], [3.0, 4.0, 5.0], [6.0, 7.0, 8.0]]
    ensures CalPairwiseDist(x) == [[0.0, 27.0, 108.0], [27.0, 0.0, 27.0], [108.0, 27.0, 0.0]]
  {
    ShiftedRow(x[0], x[1], 3.0);
    ShiftedRow(x[1], x[2], 3.0);
    ShiftedRow(x[0], x[2], 6.0);
    var d := CalPairwiseDist(x);
    assert d[0] == [0.0, 27.0, 108.0];
    assert d[1] == [27.0, 0.0, 27.0];
    assert d[2] == [108.0, 27.0, 0.0];
  }

  /** A row shifted by `c` in every coordinate lies `|a| c^2` away. */
  lemma ShiftedRow(a: seq<real>, b: seq<real>, c: real)
    requires |a| == |b|
    requires forall k :: 0 <= k < |a| ==> b[k] == a[k] + c
    ensures SqDist(a, b) == |a| as real * (c * c)
  {
    var sq := seq(|a|, k requires 0 <= k < |a| => (a[k] - b[k]) * (a[k] - b[k]));
    SumOfConstant(sq, c * c);
  }
}
