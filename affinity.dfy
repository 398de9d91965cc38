/**
 * `_cal_high_dim_prob` and `_cal_low_dim_prob`: the joint probability
 * matrices P (Gaussian kernel, per-row bandwidth) and Q (Student-t kernel).
 */
module Affinity {
  import opened Linalg
  import opened Tsne
  import BetaSearch

  // ----- high-dimensional affinities -----

  /**
   * The unnormalised Gaussian kernel of row `i`: `exp(-d_ij beta)` for each
   * distance of the row, then zero at `i` itself; positive off the diagonal.
   */
  function RowKernel(libm: Libm, row: seq<real>, i: nat, beta: real): (k: seq<real>)
    requires libm.Valid() && i < |row|
    ensures |k| == |row| && k[i] == 0.0
    ensures forall j :: 0 <= j < |row| && j != i ==> k[j] == libm.exp(-row[j] * beta) && k[j] > 0.0
  {
    seq(|row|, j requires 0 <= j < |row| => Gaussian(libm, row[j], beta))[i := 0.0]
  }

  /** The Gaussian weight `exp(-v beta)` of one distance. */
  function Gaussian(libm: Libm, v: real, beta: real): real
  {
    libm.exp(-v * beta)
  }

  lemma KernelSumPositive(libm: Libm, row: seq<real>, i: nat, beta: real)
    requires libm.Valid() && i < |row| && |row| >= 2
    ensures Sum(RowKernel(libm, row, i, beta)) > 0.0
  {
    SumPositive(RowKernel(libm, row, i, beta), if i == 0 then 1 else 0);
  }

  /**
   * The conditional distribution `p_{j|i}` of row `i`: the kernel divided
   * by its total. It is a probability vector with a zero at `i`, and each
   * entry is its kernel value's share of the total.
   */
  function CondRow(libm: Libm, row: seq<real>, i: nat, beta: real): (p: seq<real>)
    requires libm.Valid() && i < |row| && |row| >= 2
    ensures |p| == |row| && p[i] == 0.0
    ensures forall j :: 0 <= j < |p| ==> p[j] >= 0.0
    ensures Sum(p) == 1.0
    ensures Sum(RowKernel(libm, row, i, beta)) > 0.0
    ensures forall j :: 0 <= j < |p| ==>
      p[j] == RowKernel(libm, row, i, beta)[j] / Sum(RowKernel(libm, row, i, beta))
  {
    var kernel := RowKernel(libm, row, i, beta);
    var sum := Sum(kernel);
    KernelSumPositive(libm, row, i, beta);
    var p := seq(|row|, j requires 0 <= j < |row| => kernel[j] / sum);
    SumNormalised(kernel, p, sum);
    p
  }

  const EntropyFloor: real := 0.00001

  /** One entropy term `-v log2(v)`, raised to `EntropyFloor` when it is smaller. */
  function Clamped(libm: Libm, v: real): (t: real)
    ensures t >= EntropyFloor
  {
    var h := -v * libm.log2(v);
    if h >= EntropyFloor then h else EntropyFloor
  }

  /**
   * The Shannon entropy (in bits) of `p`, summed over clamped terms: every
   * term is raised to the floor, so the total is at least `|p|` times it.
   */
  function Entropy(libm: Libm, p: seq<real>): (h: real)
    ensures h >= |p| as real * EntropyFloor
  {
    var terms := seq(|p|, j requires 0 <= j < |p| => Clamped(libm, p[j]));
    EntropyBound(terms);
    Sum(terms)
  }

  lemma {:induction false} EntropyBound(terms: seq<real>)
    requires forall j :: 0 <= j < |terms| ==> terms[j] >= EntropyFloor
    ensures Sum(terms) >= |terms| as real * EntropyFloor
  {
    if |terms| > 0 {
      EntropyBound(terms[..|terms| - 1]);
    }
  }

  /**
   * The `cal_perp` closure of row `i`: `2^H` of the conditional distribution
   * at `beta`, which is positive.
   */
  function RowPerplexity(libm: Libm, row: seq<real>, i: nat, beta: real): (perp: real)
    requires libm.Valid() && i < |row| && |row| >= 2
    ensures perp > 0.0
  {
    libm.exp2(Entropy(libm, CondRow(libm, row, i, beta)))
  }

  /**
   * Every entropy term is clamped, so `H` is at least `N` times the floor and
   * the perplexity is never below `2^(N 1e-5)`.
   */
  lemma PerplexityFloor(libm: Libm, row: seq<real>, i: nat, beta: real)
    requires libm.Valid() && libm.Exp2Monotone() && i < |row| && |row| >= 2
    ensures RowPerplexity(libm, row, i, beta) >= libm.exp2(|row| as real * EntropyFloor)
  {
    var h := Entropy(libm, CondRow(libm, row, i, beta));
    assert h >= |row| as real * EntropyFloor;
  }

  /** The closure itself, handed to the bandwidth search: positive at every `beta`. */
  function PerplexityOf(libm: Libm, row: seq<real>, i: nat): (calPerp: real -> real)
    requires libm.Valid() && i < |row| && |row| >= 2
    ensures forall beta :: calPerp(beta) > 0.0
  {
    beta => RowPerplexity(libm, row, i, beta)
  }

  /**
   * The bandwidth `_search_beta` settles on for row `i`, starting from
   * `beta = 1` with no bounds; it is positive.
   */
  function RowBeta(model: TSNE, libm: Libm, dist: Matrix, i: nat): (beta: real)
    requires libm.Valid() && IsSquare(dist) && |dist| >= 2 && i < |dist|
    ensures beta > 0.0
  {
    var calPerp := PerplexityOf(libm, dist[i], i);
    BetaSearch.SearchPositive(calPerp, model.perplexity, BetaSearch.Start, []);
    BetaSearch.Search(calPerp, model.perplexity, BetaSearch.Start, []).final.beta
  }

  /** The conditional matrix, row `i` at the bandwidth found for it. */
  function CondMatrix(model: TSNE, libm: Libm, dist: Matrix): (c: Matrix)
    requires libm.Valid() && IsSquare(dist) && |dist| >= 2
    ensures IsSquare(c) && |c| == |dist| && ZeroDiagonal(c) && Nonneg(c)
    ensures forall i :: 0 <= i < |c| ==> Sum(c[i]) == 1.0
  {
    seq(|dist|, i requires 0 <= i < |dist| => CondRow(libm, dist[i], i, RowBeta(model, libm, dist, i)))
  }

  /**
   * `(C + C^T) / 2N`: entry `(i, j)` averages `p_{j|i}` and `p_{i|j}`
   * and spreads the result over the `N` rows, so the total is that of `c`
   * divided by `N`.
   */
  function Joint(c: Matrix): (p: Matrix)
    requires IsSquare(c) && |c| > 0
    ensures IsSquare(p) && |p| == |c|
    ensures forall i, j :: 0 <= i < |c| && 0 <= j < |c| ==>
      p[i][j] == (c[i][j] + c[j][i]) / (|c| as real * 2.0)
    ensures MatSum(p) == MatSum(c) / (|c| as real)
  {
    var n := |c|;
    var t := Transpose(c, n);
    var summed := MatAdd(c, t);
    var d := n as real * 2.0;
    var p := MatDiv(summed, d);
    forall i, j | 0 <= i < n && 0 <= j < n ensures p[i][j] == (c[i][j] + c[j][i]) / d {
      assert p[i][j] == summed[i][j] / d;
      assert summed[i][j] == c[i][j] + t[i][j];
    }
    MatSumPlusTranspose(c);
    MatSumDiv(summed, d);
    HalveDoubled(MatSum(c), n as real, MatSum(summed), MatSum(p));
    p
  }

  lemma JointUnfold(c: Matrix)
    requires IsSquare(c) && |c| > 0
    ensures Joint(c) == MatDiv(MatAdd(c, Transpose(c, |c|)), |c| as real * 2.0)
  {
  }

  /** A matrix built as `Joint` builds it is symmetric and keeps a zero diagonal and non-negative entries. */
  lemma JointShape(c: Matrix, p: Matrix)
    requires IsSquare(c) && |c| > 0 && IsSquare(p) && |p| == |c|
    requires forall i, j :: 0 <= i < |c| && 0 <= j < |c| ==>
      p[i][j] == (c[i][j] + c[j][i]) / (|c| as real * 2.0)
    ensures Symmetric(p)
    ensures ZeroDiagonal(c) ==> ZeroDiagonal(p)
    ensures Nonneg(c) ==> Nonneg(p)
  {
    var n := |c|;
    var d := n as real * 2.0;
    forall i, j | 0 <= i < n && 0 <= j < n ensures p[i][j] == p[j][i] {
      assert p[i][j] == (c[i][j] + c[j][i]) / d;
      assert p[j][i] == (c[j][i] + c[i][j]) / d;
    }
    if ZeroDiagonal(c) {
      forall i | 0 <= i < n ensures p[i][i] == 0.0 {
        assert c[i][i] == 0.0;
        assert p[i][i] == (c[i][i] + c[i][i]) / d;
      }
    }
    if Nonneg(c) {
      forall i, j | 0 <= i < n && 0 <= j < |p[i]| ensures p[i][j] >= 0.0 {
        assert c[i][j] >= 0.0 && c[j][i] >= 0.0;
        assert p[i][j] == (c[i][j] + c[j][i]) / d;
        DivNonneg(c[i][j] + c[j][i], d);
      }
    }
  }

  lemma DivNonneg(x: real, d: real)
    requires x >= 0.0 && d > 0.0
    ensures x / d >= 0.0
  {
  }

  /** Symmetrising `N` rows that each sum to one gives a matrix that sums to one. */
  lemma JointStochastic(c: Matrix)
    requires IsSquare(c) && |c| > 0
    requires forall i :: 0 <= i < |c| ==> Sum(c[i]) == 1.0
    ensures MatSum(Joint(c)) == 1.0
  {
    MatSumOfStochastic(c);
    var p := Joint(c);
    SelfQuotient(MatSum(c), |c| as real, MatSum(p));
  }

  lemma SelfQuotient(x: real, n: real, q: real)
    requires n != 0.0 && x == n && q == x / n
    ensures q == 1.0
  {
  }

  lemma HalveDoubled(total: real, n: real, doubled: real, result: real)
    requires n > 0.0 && doubled == 2.0 * total && result == doubled / (n * 2.0)
    ensures result == total / n
  {
  }

  /** `_cal_high_dim_prob` as a function of its input. */
  function HighDimSpec(model: TSNE, libm: Libm, dist: Matrix): Matrix
    requires libm.Valid() && IsSquare(dist) && |dist| >= 2
  {
    Joint(CondMatrix(model, libm, dist))
  }

  /** A joint distribution: symmetric, zero diagonal, non-negative, total one. */
  ghost predicate JointDistribution(p: Matrix)
  {
    Symmetric(p) && ZeroDiagonal(p) && Nonneg(p) && MatSum(p) == 1.0
  }

  /**
   * `_cal_high_dim_prob`: fill the conditional matrix row by row, each row
   * at the bandwidth `_search_beta` finds for it, then symmetrise and divide
   * by `2 N`. The result is a joint distribution.
   */
  method HighDimProb(model: TSNE, libm: Libm, dist: Matrix) returns (probabilities: Matrix)
    requires libm.Valid() && IsSquare(dist) && |dist| >= 2
    ensures probabilities == HighDimSpec(model, libm, dist)
    ensures JointDistribution(probabilities) && |probabilities| == |dist|
  {
    var n := |dist|;
    ghost var cond := CondMatrix(model, libm, dist);
    probabilities := Zeros(n, n);
    for i := 0 to n
      invariant |probabilities| == n
      invariant forall k :: 0 <= k < i ==> probabilities[k] == cond[k]
      invariant forall k :: i <= k < n ==> probabilities[k] == Zeros(n, n)[k]
    {
      var row := ConditionalRow(model, libm, dist, i);
      probabilities := probabilities[i := row];
    }
    assert probabilities == cond;
    var view := probabilities;
    probabilities := MatAdd(view, Transpose(view, n));
    probabilities := MatDiv(probabilities, n as real * 2.0);
    SymmetrisedDistribution(cond, probabilities);
  }

  /** One turn of the row loop: search the bandwidth of row `i`, then normalise its kernel. */
  method ConditionalRow(model: TSNE, libm: Libm, dist: Matrix, i: nat) returns (row: seq<real>)
    requires libm.Valid() && IsSquare(dist) && |dist| >= 2 && i < |dist|
    ensures row == CondRow(libm, dist[i], i, RowBeta(model, libm, dist, i))
  {
    var n := |dist|;
    var calPerp := PerplexityOf(libm, dist[i], i);
    var beta;
    ghost var evaluated;
    beta, evaluated := BetaSearch.SearchBeta(model, calPerp);
    var kernel := RowKernel(libm, dist[i], i, beta);
    var sum := Sum(kernel);
    KernelSumPositive(libm, dist[i], i, beta);
    row := seq(n, j requires 0 <= j < n => kernel[j] / sum);
    assert row == CondRow(libm, dist[i], i, beta);
  }

  /** Symmetrising a row-stochastic conditional matrix gives a joint distribution. */
  lemma SymmetrisedDistribution(c: Matrix, p: Matrix)
    requires IsSquare(c) && |c| > 0 && ZeroDiagonal(c) && Nonneg(c)
    requires forall i :: 0 <= i < |c| ==> Sum(c[i]) == 1.0
    requires p == MatDiv(MatAdd(c, Transpose(c, |c|)), |c| as real * 2.0)
    ensures p == Joint(c) && JointDistribution(p)
  {
    JointUnfold(c);
    JointShape(c, p);
    JointStochastic(c);
  }

  // ----- low-dimensional affinities -----

  /** The Student-t kernel `1/(1 + d_ij)` of every distance, with the diagonal set to zero. */
  function StudentKernel(dist: Matrix): (k: Matrix)
    requires IsSquare(dist) && Nonneg(dist)
    ensures IsSquare(k) && |k| == |dist| && ZeroDiagonal(k) && Nonneg(k)
    ensures forall i, j :: 0 <= i < |k| && 0 <= j < |k| && i != j ==>
      k[i][j] == 1.0 / (1.0 + dist[i][j]) && k[i][j] > 0.0
  {
    var n := |dist|;
    seq(n, i requires 0 <= i < n =>
      seq(n, j requires 0 <= j < n => 1.0 / (1.0 + dist[i][j]))[i := 0.0])
  }

  lemma KernelTotalPositive(k: Matrix)
    requires IsSquare(k) && |k| >= 2 && Nonneg(k) && k[0][1] > 0.0
    ensures MatSum(k) > 0.0
  {
    forall i | 0 <= i < |k| ensures RowSums(k)[i] >= 0.0 {
      SumNonneg(k[i]);
    }
    SumPositive(k[0], 1);
    SumPositive(RowSums(k), 0);
  }

  /**
   * `_cal_low_dim_prob`: the Student-t kernel divided by its grand total.
   * Zero on the diagonal, each off-diagonal entry `1/(1 + d_ij)` over the
   * total, symmetric when `dist` is, and a probability distribution.
   */
  function LowDimProb(dist: Matrix): (q: Matrix)
    requires IsSquare(dist) && |dist| >= 2 && Nonneg(dist)
    ensures IsSquare(q) && |q| == |dist| && ZeroDiagonal(q) && Nonneg(q)
    ensures MatSum(StudentKernel(dist)) > 0.0
    ensures forall i, j :: 0 <= i < |q| && 0 <= j < |q| && i != j ==>
      q[i][j] == (1.0 / (1.0 + dist[i][j])) / MatSum(StudentKernel(dist))
    ensures Symmetric(dist) ==> Symmetric(q)
    ensures MatSum(q) == 1.0
  {
    var kernel := StudentKernel(dist);
    var sum := MatSum(kernel);
    KernelTotalPositive(kernel);
    var q := MatDiv(kernel, sum);
    LowDimTotal(kernel, sum, q);
    q
  }

  lemma LowDimTotal(k: Matrix, sum: real, q: Matrix)
    requires sum == MatSum(k) && sum > 0.0 && q == MatDiv(k, sum)
    ensures MatSum(q) == 1.0
  {
    MatSumDiv(k, sum);
    var total := MatSum(q);
    assert total == sum / sum;
  }
}
