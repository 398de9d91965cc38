/**
 * `TSNE::fit`: gradient descent with momentum on a two-dimensional
 * embedding `y`, against the joint affinities of the input, with the
 * affinities multiplied by four for the first fifty iterations when early
 * exaggeration is on.
 */
module Optimizer {
  import opened Linalg
  import opened Tsne
  import PairwiseDistance
  import Affinity

  /** The embedding has two columns. */
  const OutputDim: nat := 2

  /** The iteration at which the exaggerated affinities are divided back. */
  const ExaggerationEnd: nat := 50

  const ExaggerationFactor: real := 4.0

  /** The optimiser state: the embedding and its velocity. */
  datatype State = State(y: Matrix, iy: Matrix)

  /**
   * One term of the gradient tensor:
   * coordinate `c` of the difference `y_j - y_i`, weighted by `p_ij - q_ij`
   * and by the Student-t kernel `1 / (1 + d_ij)`.
   */
  function Force(y: Matrix, p: Matrix, q: Matrix, d: Matrix, i: nat, j: nat, c: nat): real
    requires i < |y| && j < |y| && c < |y[i]| && c < |y[j]|
    requires i < |p| && j < |p[i]| && i < |q| && j < |q[i]| && i < |d| && j < |d[i]|
    requires d[i][j] >= 0.0
  {
    (y[j][c] - y[i][c]) * (p[i][j] - q[i][j]) * (1.0 / (1.0 + d[i][j])) * 4.0
  }

  /** The signed weight `4 (p_ij - q_ij) / (1 + d_ij)` a pair's difference is multiplied by. */
  function Weight(p: Matrix, q: Matrix, d: Matrix, i: nat, j: nat): real
    requires i < |p| && j < |p[i]| && i < |q| && j < |q[i]| && i < |d| && j < |d[i]|
    requires d[i][j] >= 0.0
  {
    (p[i][j] - q[i][j]) * (1.0 / (1.0 + d[i][j])) * 4.0
  }

  ghost predicate Conformant(y: Matrix, p: Matrix, q: Matrix, d: Matrix)
  {
    && IsMatrix(y, |y|, OutputDim)
    && IsSquare(p) && IsSquare(q) && IsSquare(d)
    && |p| == |y| && |q| == |y| && |d| == |y|
    && Nonneg(d)
  }

  /** Slice `c` of the gradient tensor: entry `(i, j)` is the force `j` exerts on `i` along `c`. */
  function Forces(y: Matrix, p: Matrix, q: Matrix, d: Matrix, c: nat): (f: Matrix)
    requires Conformant(y, p, q, d) && c < OutputDim
    ensures IsSquare(f) && |f| == |y|
    ensures forall i, j :: 0 <= i < |y| && 0 <= j < |y| ==>
      f[i][j] == (y[j][c] - y[i][c]) * Weight(p, q, d, i, j)
  {
    var n := |y|;
    var f := seq(n, i requires 0 <= i < n => seq(n, j requires 0 <= j < n => Force(y, p, q, d, i, j, c)));
    ForceWeight(y, p, q, d, c, f);
    f
  }

  lemma ForceWeight(y: Matrix, p: Matrix, q: Matrix, d: Matrix, c: nat, f: Matrix)
    requires Conformant(y, p, q, d) && c < OutputDim
    requires IsSquare(f) && |f| == |y|
    requires forall i, j :: 0 <= i < |y| && 0 <= j < |y| ==> f[i][j] == Force(y, p, q, d, i, j, c)
    ensures forall i, j :: 0 <= i < |y| && 0 <= j < |y| ==>
      f[i][j] == (y[j][c] - y[i][c]) * Weight(p, q, d, i, j)
  {
  }

  /**
   * The gradient, summed over `j`: entry `(i, c)` is the total force on point `i`
   * along coordinate `c`, the row sum of slice `c`.
   */
  function Gradient(y: Matrix, p: Matrix, q: Matrix, d: Matrix): (g: Matrix)
    requires Conformant(y, p, q, d)
    ensures IsMatrix(g, |y|, OutputDim)
    ensures forall c :: 0 <= c < OutputDim ==> Column(g, c) == RowSums(Forces(y, p, q, d, c))
  {
    var n := |y|;
    var g := seq(n, i requires 0 <= i < n =>
      seq(OutputDim, c requires 0 <= c < OutputDim => RowSums(Forces(y, p, q, d, c))[i]));
    g
  }

  /**
   * With symmetric `p`, `q` and `d`, the weight of a pair is the same both
   * ways and the difference changes sign, so each slice is antisymmetric.
   */
  lemma ForcesAntisymmetric(y: Matrix, p: Matrix, q: Matrix, d: Matrix, c: nat)
    requires Conformant(y, p, q, d) && c < OutputDim
    requires Symmetric(p) && Symmetric(q) && Symmetric(d)
    ensures forall i, j :: 0 <= i < |y| && 0 <= j < |y| ==>
      Forces(y, p, q, d, c)[i][j] == -Forces(y, p, q, d, c)[j][i]
  {
    var f := Forces(y, p, q, d, c);
    forall i, j | 0 <= i < |y| && 0 <= j < |y| ensures f[i][j] == -f[j][i] {
      var w := Weight(p, q, d, i, j);
      assert Weight(p, q, d, j, i) == w;
      NegatedProduct(y[j][c] - y[i][c], y[i][c] - y[j][c], w);
    }
  }

  lemma NegatedProduct(a: real, b: real, w: real)
    requires b == -a
    ensures a * w == -(b * w)
  {
  }

  /**
   * Newton's third law for the embedding: with symmetric affinities and
   * distances the forces cancel in pairs, so every column of the gradient
   * sums to zero.
   */
  lemma GradientBalanced(y: Matrix, p: Matrix, q: Matrix, d: Matrix)
    requires Conformant(y, p, q, d)
    requires Symmetric(p) && Symmetric(q) && Symmetric(d)
    ensures forall c :: 0 <= c < OutputDim ==> Sum(Column(Gradient(y, p, q, d), c)) == 0.0
  {
    forall c | 0 <= c < OutputDim ensures Sum(Column(Gradient(y, p, q, d), c)) == 0.0 {
      ForcesAntisymmetric(y, p, q, d, c);
      AntisymmetricSumZero(Forces(y, p, q, d, c));
    }
  }

  /**
   * The affinities iteration `i` works with: four times `p0` before
   * `ExaggerationEnd` when early exaggeration is on, `p0` otherwise.
   */
  function Exaggerated(p0: Matrix, earlyExaggeration: bool, i: nat): (p: Matrix)
    ensures IsSquare(p0) ==> IsSquare(p) && |p| == |p0|
    ensures Symmetric(p0) ==> Symmetric(p)
  {
    if earlyExaggeration && i < ExaggerationEnd then MatScale(p0, ExaggerationFactor) else p0
  }

  /** The rescaling at the top of iteration `i`: divide by four at iteration 50 when early exaggeration is on. */
  function Rescaled(p: Matrix, earlyExaggeration: bool, i: nat): (r: Matrix)
    ensures IsSquare(p) ==> IsSquare(r) && |r| == |p|
  {
    if earlyExaggeration && i == ExaggerationEnd then MatDiv(p, ExaggerationFactor) else p
  }

  /** What `p` holds when iteration `i` starts: what iteration `i - 1` used, or the initial exaggeration. */
  function AtHead(p0: Matrix, earlyExaggeration: bool, i: nat): Matrix
  {
    Exaggerated(p0, earlyExaggeration, if i == 0 then 0 else i - 1)
  }

  /**
   * Multiplying by four once and dividing by four at iteration
   * `ExaggerationEnd` gives every iteration the affinities `Exaggerated`
   * assigns it.
   */
  lemma ExaggerationSchedule(p0: Matrix, earlyExaggeration: bool, i: nat)
    ensures Rescaled(AtHead(p0, earlyExaggeration, i), earlyExaggeration, i) == Exaggerated(p0, earlyExaggeration, i)
  {
    if earlyExaggeration && i == ExaggerationEnd {
      ExaggerationUndone(p0);
    }
  }

  /**
   * What `p` holds once the rescaling at the top of iteration `i` is done:
   * four times the computed affinities before iteration 50 when early
   * exaggeration is on, exactly the computed ones otherwise.
   */
  lemma ExaggerationPhases(p0: Matrix, earlyExaggeration: bool, i: nat)
    ensures var p := Rescaled(AtHead(p0, earlyExaggeration, i), earlyExaggeration, i);
      && (earlyExaggeration && i < ExaggerationEnd ==>
            |p| == |p0| && forall a, b :: 0 <= a < |p0| && 0 <= b < |p0[a]| ==> p[a][b] == p0[a][b] * 4.0)
      && (!earlyExaggeration || i >= ExaggerationEnd ==> p == p0)
  {
    ExaggerationSchedule(p0, earlyExaggeration, i);
  }

  /** Dividing by four undoes multiplying by four, entry by entry. */
  lemma ExaggerationUndone(p0: Matrix)
    ensures MatDiv(MatScale(p0, ExaggerationFactor), ExaggerationFactor) == p0
  {
    var r := MatDiv(MatScale(p0, ExaggerationFactor), ExaggerationFactor);
    forall a | 0 <= a < |p0| ensures r[a] == p0[a] {
      forall b | 0 <= b < |p0[a]| ensures r[a][b] == p0[a][b] {
        TimesThenDivide(p0[a][b], ExaggerationFactor);
      }
    }
  }

  lemma TimesThenDivide(x: real, f: real)
    requires f != 0.0
    ensures (x * f) / f == x
  {
  }

  ghost predicate WellShaped(s: State, n: nat)
  {
    IsMatrix(s.y, n, OutputDim) && IsMatrix(s.iy, n, OutputDim)
  }

  /**
   * One iteration of the loop body against affinities `p`: the distances
   * and Student-t affinities of the current embedding, the gradient, then
   * the new velocity `lr grad + m iy` and the embedding moved by it.
   */
  function Descend(p: Matrix, s: State, learningRate: real, momentum: real): (next: State)
    requires WellShaped(s, |s.y|) && |s.y| >= 2 && IsSquare(p) && |p| == |s.y|
    ensures WellShaped(next, |s.y|)
  {
    var yDist := PairwiseDistance.CalPairwiseDist(s.y);
    var q := Affinity.LowDimProb(yDist);
    var grad := Gradient(s.y, p, q, yDist);
    var iy := MatAdd(MatScale(grad, learningRate), MatScale(s.iy, momentum));
    State(MatAdd(s.y, iy), iy)
  }

  /** Iterations `i` up to `maxIterNum` of the loop as written: `p` is rescaled in place, then used. */
  function Run(p: Matrix, earlyExaggeration: bool, s: State, i: nat, maxIterNum: nat,
               learningRate: real, momentum: real): (last: State)
    requires WellShaped(s, |s.y|) && |s.y| >= 2 && IsSquare(p) && |p| == |s.y|
    ensures WellShaped(last, |s.y|)
    decreases maxIterNum - i
  {
    if i >= maxIterNum then s
    else
      var p' := Rescaled(p, earlyExaggeration, i);
      Run(p', earlyExaggeration, Descend(p', s, learningRate, momentum), i + 1, maxIterNum, learningRate, momentum)
  }

  /** Iterations `i` up to `maxIterNum`, each against the affinities `Exaggerated` assigns it. */
  function Schedule(p0: Matrix, earlyExaggeration: bool, s: State, i: nat, maxIterNum: nat,
                    learningRate: real, momentum: real): (last: State)
    requires WellShaped(s, |s.y|) && |s.y| >= 2 && IsSquare(p0) && |p0| == |s.y|
    ensures WellShaped(last, |s.y|)
    decreases maxIterNum - i
  {
    if i >= maxIterNum then s
    else
      var next := Descend(Exaggerated(p0, earlyExaggeration, i), s, learningRate, momentum);
      Schedule(p0, earlyExaggeration, next, i + 1, maxIterNum, learningRate, momentum)
  }

  /** The loop as written, with `p` rescaled in place, follows the exaggeration schedule. */
  lemma {:induction false} RunFollowsSchedule(p0: Matrix, earlyExaggeration: bool, s: State, i: nat,
                                              maxIterNum: nat, learningRate: real, momentum: real)
    requires WellShaped(s, |s.y|) && |s.y| >= 2 && IsSquare(p0) && |p0| == |s.y|
    ensures Run(AtHead(p0, earlyExaggeration, i), earlyExaggeration, s, i, maxIterNum, learningRate, momentum)
         == Schedule(p0, earlyExaggeration, s, i, maxIterNum, learningRate, momentum)
    decreases maxIterNum - i
  {
    if i < maxIterNum {
      var head := AtHead(p0, earlyExaggeration, i);
      var p := Exaggerated(p0, earlyExaggeration, i);
      ExaggerationSchedule(p0, earlyExaggeration, i);
      var next := Descend(p, s, learningRate, momentum);
      assert s == State(s.y, s.iy) && next == State(next.y, next.iy);
      RunStep(head, earlyExaggeration, s.y, s.iy, i, maxIterNum, learningRate, momentum, p, next.y, next.iy);
      assert AtHead(p0, earlyExaggeration, i + 1) == p;
      RunFollowsSchedule(p0, earlyExaggeration, next, i + 1, maxIterNum, learningRate, momentum);
    }
  }

  /** One turn of the loop body, in the terms the loop writes it in. */
  lemma RunStep(p: Matrix, earlyExaggeration: bool, y: Matrix, iy: Matrix, i: nat, maxIterNum: nat,
                learningRate: real, momentum: real, p': Matrix, y': Matrix, iy': Matrix)
    requires WellShaped(State(y, iy), |y|) && |y| >= 2 && IsSquare(p) && |p| == |y| && i < maxIterNum
    requires p' == Rescaled(p, earlyExaggeration, i)
    requires State(y', iy') == Descend(p', State(y, iy), learningRate, momentum)
    ensures Run(p, earlyExaggeration, State(y, iy), i, maxIterNum, learningRate, momentum)
         == Run(p', earlyExaggeration, State(y', iy'), i + 1, maxIterNum, learningRate, momentum)
  {
  }

  /** Every column of the matrix sums to zero. */
  ghost predicate Balanced(m: Matrix)
    requires IsMatrix(m, |m|, OutputDim)
  {
    forall c :: 0 <= c < OutputDim ==> Sum(Column(m, c)) == 0.0
  }

  /** Column `c` of `y`, summed: `N` times coordinate `c` of the centroid. */
  function Centroid(y: Matrix): (t: seq<real>)
    requires IsMatrix(y, |y|, OutputDim)
    ensures |t| == OutputDim && forall c :: 0 <= c < OutputDim ==> t[c] == Sum(Column(y, c))
  {
    seq(OutputDim, c requires 0 <= c < OutputDim => Sum(Column(y, c)))
  }

  /**
   * One iteration with symmetric affinities keeps the velocity balanced,
   * and so does not move the centroid of the embedding.
   */
  lemma DescendKeepsCentroid(p: Matrix, s: State, learningRate: real, momentum: real)
    requires WellShaped(s, |s.y|) && |s.y| >= 2 && IsSquare(p) && |p| == |s.y|
    requires Symmetric(p) && Balanced(s.iy)
    ensures Balanced(Descend(p, s, learningRate, momentum).iy)
    ensures Centroid(Descend(p, s, learningRate, momentum).y) == Centroid(s.y)
  {
    var yDist := PairwiseDistance.CalPairwiseDist(s.y);
    var q := Affinity.LowDimProb(yDist);
    var grad := Gradient(s.y, p, q, yDist);
    GradientBalanced(s.y, p, q, yDist);
    MomentumKeepsCentroid(grad, s.iy, s.y, learningRate, momentum);
  }

  /**
   * The velocity update `lr grad + m iy` and the move by it, with a balanced
   * gradient and velocity: the new velocity is balanced and `y` keeps its
   * column sums.
   */
  lemma MomentumKeepsCentroid(grad: Matrix, iy: Matrix, y: Matrix, learningRate: real, momentum: real)
    requires IsMatrix(grad, |y|, OutputDim) && IsMatrix(iy, |y|, OutputDim) && IsMatrix(y, |y|, OutputDim)
    requires Balanced(grad) && Balanced(iy)
    ensures Balanced(MatAdd(MatScale(grad, learningRate), MatScale(iy, momentum)))
    ensures Centroid(MatAdd(y, MatAdd(MatScale(grad, learningRate), MatScale(iy, momentum)))) == Centroid(y)
  {
    var next := MatAdd(MatScale(grad, learningRate), MatScale(iy, momentum));
    forall c | 0 <= c < OutputDim
      ensures Sum(Column(next, c)) == 0.0 && Sum(Column(MatAdd(y, next), c)) == Sum(Column(y, c))
    {
      VelocityColumn(grad, iy, learningRate, momentum, c);
      ColumnAdd(y, next, c);
    }
  }

  /** Column `c` of the new velocity sums to zero when the gradient's and the old velocity's do. */
  lemma VelocityColumn(grad: Matrix, iy: Matrix, learningRate: real, momentum: real, c: nat)
    requires IsMatrix(grad, |grad|, OutputDim) && IsMatrix(iy, |grad|, OutputDim)
    requires c < OutputDim && Sum(Column(grad, c)) == 0.0 && Sum(Column(iy, c)) == 0.0
    ensures Sum(Column(MatAdd(MatScale(grad, learningRate), MatScale(iy, momentum)), c)) == 0.0
  {
    var scaled := MatScale(grad, learningRate);
    var kept := MatScale(iy, momentum);
    ColumnScale(grad, learningRate, c);
    ColumnScale(iy, momentum, c);
    ColumnAdd(scaled, kept, c);
    ZeroCombination(learningRate, Sum(Column(grad, c)), Sum(Column(scaled, c)),
                    momentum, Sum(Column(iy, c)), Sum(Column(kept, c)));
  }

  lemma ZeroCombination(a: real, x: real, ax: real, b: real, y: real, bY: real)
    requires x == 0.0 && y == 0.0 && ax == a * x && bY == b * y
    ensures ax + bY == 0.0
  {
  }

  /** Any number of scheduled iterations from a balanced velocity leave the centroid where it was. */
  lemma {:induction false} ScheduleKeepsCentroid(p0: Matrix, earlyExaggeration: bool, s: State, i: nat,
                                                 maxIterNum: nat, learningRate: real, momentum: real)
    requires WellShaped(s, |s.y|) && |s.y| >= 2 && IsSquare(p0) && |p0| == |s.y|
    requires Symmetric(p0) && Balanced(s.iy)
    ensures Centroid(Schedule(p0, earlyExaggeration, s, i, maxIterNum, learningRate, momentum).y) == Centroid(s.y)
    decreases maxIterNum - i
  {
    if i < maxIterNum {
      var p := Exaggerated(p0, earlyExaggeration, i);
      DescendKeepsCentroid(p, s, learningRate, momentum);
      var next := Descend(p, s, learningRate, momentum);
      ScheduleKeepsCentroid(p0, earlyExaggeration, next, i + 1, maxIterNum, learningRate, momentum);
    }
  }

  /** A zero velocity is balanced. */
  lemma ZerosBalanced(n: nat)
    ensures Balanced(Zeros(n, OutputDim))
  {
    forall c | 0 <= c < OutputDim ensures Sum(Column(Zeros(n, OutputDim), c)) == 0.0 {
      SumOfZeros(Column(Zeros(n, OutputDim), c));
    }
  }

  /**
   * One turn of the loop body of `fit` against affinities `p`: the
   * distances and Student-t affinities of `y`, the gradient, the new
   * velocity and the moved embedding.
   */
  method Iterate(p: Matrix, y: Matrix, iy: Matrix, learningRate: real, momentum: real)
      returns (y': Matrix, iy': Matrix)
    requires WellShaped(State(y, iy), |y|) && |y| >= 2 && IsSquare(p) && |p| == |y|
    ensures State(y', iy') == Descend(p, State(y, iy), learningRate, momentum)
    ensures WellShaped(State(y', iy'), |y|)
  {
    var yDist := PairwiseDistance.CalPairwiseDist(y);
    var q := Affinity.LowDimProb(yDist);
    var grad := Gradient(y, p, q, yDist);
    iy' := MatAdd(MatScale(grad, learningRate), MatScale(iy, momentum));
    y' := MatAdd(y, iy');
  }

  /** `fit` as a function of its inputs and of the initial embedding `y0`. */
  function FitSpec(model: TSNE, libm: Libm, x: Matrix, maxIterNum: nat, learningRate: real,
                   momentum: real, y0: Matrix): (y: Matrix)
    requires libm.Valid() && Rectangular(x) && |x| >= 2 && IsMatrix(y0, |x|, OutputDim)
    ensures IsMatrix(y, |x|, OutputDim)
  {
    var p0 := Affinity.HighDimSpec(model, libm, PairwiseDistance.CalPairwiseDist(x));
    Schedule(p0, model.earlyExaggeration, State(y0, Zeros(|x|, OutputDim)), 0, maxIterNum,
             learningRate, momentum).y
  }

  /**
   * `fit`: the joint affinities of `x`, exaggerated if asked, then
   * `maxIterNum` momentum steps from `y0`, with the exaggeration lifted at
   * iteration `ExaggerationEnd`. Zero iterations return `y0`; any number
   * of iterations keep the centroid of `y0`.
   */
  method Fit(model: TSNE, libm: Libm, x: Matrix, maxIterNum: nat, learningRate: real,
             momentum: real, y0: Matrix) returns (y: Matrix)
    requires libm.Valid() && Rectangular(x) && |x| >= 2 && IsMatrix(y0, |x|, OutputDim)
    ensures y == FitSpec(model, libm, x, maxIterNum, learningRate, momentum, y0)
    ensures IsMatrix(y, |x|, OutputDim)
    ensures maxIterNum == 0 ==> y == y0
    ensures Centroid(y) == Centroid(y0)
  {
    var n := |x|;
    var xDist := PairwiseDistance.CalPairwiseDist(x);
    var p := Affinity.HighDimProb(model, libm, xDist);
    ghost var p0 := p;
    ghost var start := State(y0, Zeros(n, OutputDim));
    if model.earlyExaggeration {
      p := MatScale(p, ExaggerationFactor);
    }
    assert p == AtHead(p0, model.earlyExaggeration, 0);
    ghost var whole := Run(p, model.earlyExaggeration, start, 0, maxIterNum, learningRate, momentum);
    y := y0;
    var iy := Zeros(n, OutputDim);
    for i := 0 to maxIterNum
      invariant IsSquare(p) && |p| == n
      invariant WellShaped(State(y, iy), n)
      invariant whole == Run(p, model.earlyExaggeration, State(y, iy), i, maxIterNum, learningRate, momentum)
    {
      ghost var (p1, y1, iy1) := (p, y, iy);
      if model.earlyExaggeration && i == ExaggerationEnd {
        p := MatDiv(p, ExaggerationFactor);
      }
      y, iy := Iterate(p, y, iy, learningRate, momentum);
      RunStep(p1, model.earlyExaggeration, y1, iy1, i, maxIterNum, learningRate, momentum, p, y, iy);
    }
    ZerosBalanced(n);
    ScheduleKeepsCentroid(p0, model.earlyExaggeration, start, 0, maxIterNum, learningRate, momentum);
    RunFollowsSchedule(p0, model.earlyExaggeration, start, 0, maxIterNum, learningRate, momentum);
  }
}
