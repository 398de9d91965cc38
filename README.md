# t-SNE engine, modelled in Dafny

This project models the numerical engine of a small t-SNE implementation
(`src/rust/tsne.rs`). The engine embeds `N` high-dimensional points in the
plane and has five parts:

- **Pairwise distances** (`PairwiseDistance`). `cal_pairwise_dist` builds the
  squared Euclidean distance matrix through the identity
  `|x_i|^2 + |x_j|^2 - 2 x_i . x_j`. The model proves that every entry is the
  squared distance. So the matrix is symmetric, has a zero diagonal and has
  no negative entries. The module also reproduces the repository's unit test.
- **Bandwidth search** (`BetaSearch`). `_search_beta` looks for the kernel
  precision `beta` whose perplexity is within `1e-5` of the target.
  - It makes at most 50 passes, doubling or halving `beta` until it has both
    a lower and an upper bound, and bisecting after that.
  - The loop is a `for` loop with an early `break`. A recursive function on
    the same state specifies it.
  - Lemmas prove that:
    - the loop calls the perplexity function at most 50 times;
    - it stops early exactly at the first acceptable `beta`;
    - every `beta` it tries is positive;
    - the bounds always sit on the correct side of `beta`, and once both exist
      each step halves the bracket.
- **High-dimensional affinities** (`Affinity.HighDimProb`). For each row the
  engine:
  1. searches a bandwidth;
  2. fills the row with a normalised Gaussian kernel that is zero on the
     diagonal (the conditional distribution `p_{j|i}`);
  3. once all rows are filled, symmetrises the matrix as `(C + C^T) / 2N`.

  The model proves:
  - each conditional row sums to one;
  - the joint matrix is symmetric, non-negative, has a zero diagonal and sums
    to one.
- **Low-dimensional affinities** (`Affinity.LowDimProb`). The Student-t
  kernel `1/(1 + d_ij)`, with a zero diagonal, divided by its grand total. It
  is a probability distribution, and it is symmetric whenever the distances
  are.
- **Optimiser** (`Optimizer.Fit`). The configuration is `Tsne.TSNE`; its
  constructor `TSNE::new` is `Tsne.New`. `fit` runs a momentum gradient
  descent on an `N x 2` embedding.
  - When early exaggeration is on, the affinities are multiplied by four
    before the loop and divided back at iteration 50.
  - `Fit` keeps the affinity matrix in a variable and rescales it there, as
    the code does. It is proved equal to a clean schedule, `Exaggerated`, in
    which iteration `i` uses four times the affinities before iteration 50
    and the computed affinities from then on.
  - Zero iterations return the initial embedding.
  - Every run keeps the centroid of the embedding. With symmetric `P`, `Q` and
    distances, the forces between two points cancel, so every gradient column
    sums to zero. The velocity starts at zero, so its columns stay balanced
    too.

Modelling decisions:

- **Numbers.** All arithmetic is over `real`, so there is no rounding, NaN or
  infinity.
- **Library functions.** `f64::exp`, `f64::log2` and `f64::exp2` are fields of
  the parameter `Tsne.Libm`. These are arbitrary total functions on `real`.
  The model assumes only that `exp` and `exp2` are positive. Positivity of
  `exp` makes every normalising total non-zero. One lemma, the lower bound
  on the perplexity, also assumes that `exp2` is non-decreasing.
- **Entropy at zero.** `EntropyFloor` is the floor on entropy terms. At a zero
  probability the code computes `-0 * log2(0)`. In IEEE arithmetic that is
  NaN, and `max` with `1e-5` turns it into `1e-5`. The model gets the same
  value, because the term `-0 * log2(0)` is `0` for any `log2` and is then
  raised to the floor.
- **Random start.** The random initial embedding is the parameter `y0`.
- **Gradient sign.** The gradient term uses the difference `y_j - y_i`,
  exactly as the code builds it. Up to sign, this is the standard t-SNE
  gradient. With the update `y += iy` and a positive learning rate, this sign
  makes each step move against the gradient. The model does not prove that
  any step decreases the divergence.

## Model

| member | source | states |
|---|---|---|
| Tsne.New | src/rust/tsne.rs:27-32 | the configuration holds the perplexity and the exaggeration flag it was given |
| PairwiseDistance.NormBroadcastIdentity | src/rust/tsne.rs:9-14 | norm-plus-norm-minus-twice-dot equals the sum of squared coordinate differences |
| PairwiseDistance.PairwiseFacts | src/rust/tsne.rs:8-16 | a matrix built from the identity holds squared distances, so it is symmetric, non-negative, with a zero diagonal |
| PairwiseDistance.CalPairwiseDist | src/rust/tsne.rs:8-16 | square `N x N`; entry `(i, j)` is the squared distance of rows `i` and `j`; symmetric, zero diagonal, non-negative |
| PairwiseDistance.PairwiseFixture | src/rust/tsne.rs:180-194 | the unit test's input gives exactly `[[0,27,108],[27,0,27],[108,27,0]]` |
| PairwiseDistance.ShiftedRow | src/rust/tsne.rs:180-194 | a row shifted by `c` in every coordinate is `|a| c^2` away, the fact behind the unit test's values |
| BetaSearch.Step | src/rust/tsne.rs:47-62 | too high a perplexity records `beta` as lower bound and raises `beta`; too low records it as upper bound and lowers `beta`; bracketing is preserved and the bracket width halves |
| BetaSearch.StepDisciplined | src/rust/tsne.rs:47-62 | a step files the bound on the side its `diff` says, so lower bounds were too high and upper bounds too low |
| BetaSearch.Search | src/rust/tsne.rs:44-67 | the loop as recursion on its state; a run only extends the list of evaluations, and one that leaves early ends at a `beta` within tolerance |
| BetaSearch.SearchTrace | src/rust/tsne.rs:44-67 | one evaluation per pass, at most 50 in all, starting at the current `beta`; an early exit returns a `beta` within tolerance, otherwise all 50 passes are used |
| BetaSearch.SearchPositive | src/rust/tsne.rs:41-61 | every `beta` tried and the one returned is positive |
| BetaSearch.SearchStopsAtFirst | src/rust/tsne.rs:44-66 | every evaluation before the exit was out of tolerance: the first acceptable `beta` ends the search |
| BetaSearch.SearchDisciplined | src/rust/tsne.rs:42-62 | the final state is well bracketed and its bounds lie on the correct sides |
| BetaSearch.SearchBeta | src/rust/tsne.rs:34-69 | the loop with its early `break` returns the `beta` of the recursive search and makes exactly its sequence of perplexity evaluations |
| Affinity.RowKernel | src/rust/tsne.rs:84-85 | zero at `i`; off the diagonal, `exp(-d_ij beta)`, which is positive |
| Affinity.KernelSumPositive | src/rust/tsne.rs:86 | with at least two points the kernel total is positive, so the division is defined |
| Affinity.CondRow | src/rust/tsne.rs:84-88 | the normalised row: zero at `i`, non-negative, sums to one, each entry the kernel value's share of the total |
| Affinity.Clamped | src/rust/tsne.rs:81 | an entropy term is never below `1e-5` |
| Affinity.Entropy | src/rust/tsne.rs:81 | the clamped entropy is at least `N` times `1e-5` |
| Affinity.EntropyBound | src/rust/tsne.rs:81 | a sum of terms each at least the floor is at least the count times the floor |
| Affinity.RowPerplexity | src/rust/tsne.rs:77-82 | the `cal_perp` closure's value, `2^H` of the clamped entropy of the conditional row, is positive |
| Affinity.PerplexityFloor | src/rust/tsne.rs:81 | since every entropy term is clamped, the perplexity is at least `2^(N 1e-5)` for a non-decreasing `exp2` |
| Affinity.PerplexityOf | src/rust/tsne.rs:77-82 | the closure handed to the search is positive at every `beta` |
| Affinity.RowBeta | src/rust/tsne.rs:83 | the bandwidth the search returns for row `i` is positive |
| Affinity.ConditionalRow | src/rust/tsne.rs:83-88 | one turn of the row loop yields row `i` of the conditional matrix, at the bandwidth the search returns |
| Affinity.CondMatrix | src/rust/tsne.rs:76-89 | the conditional matrix is square, has a zero diagonal and no negative entries, and every row sums to one |
| Affinity.Joint | src/rust/tsne.rs:90-92 | entry `(i, j)` is `(c_ij + c_ji) / 2N`; the grand total is that of `c` divided by `N` |
| Affinity.JointShape | src/rust/tsne.rs:90-92 | the symmetrised matrix is symmetric and inherits a zero diagonal and non-negativity |
| Affinity.JointStochastic | src/rust/tsne.rs:90-92 | symmetrising `N` rows that each sum to one gives total one |
| Affinity.SymmetrisedDistribution | src/rust/tsne.rs:90-93 | the buffer after symmetrising and dividing is `Joint` of the conditional matrix and a joint distribution |
| Affinity.HighDimProb | src/rust/tsne.rs:71-94 | the row-by-row fill equals the specification; the result is symmetric, zero on the diagonal, non-negative and sums to one |
| Affinity.StudentKernel | src/rust/tsne.rs:97-100 | zero diagonal, `1/(1 + d_ij)` off it, non-negative |
| Affinity.KernelTotalPositive | src/rust/tsne.rs:101 | the kernel total is positive when `N >= 2` |
| Affinity.LowDimProb | src/rust/tsne.rs:96-103 | zero diagonal, non-negative, off-diagonal entries are the kernel over its total, symmetric for symmetric distances, sums to one |
| Affinity.LowDimTotal | src/rust/tsne.rs:101-102 | dividing by a positive grand total gives total one |
| Optimizer.Forces | src/rust/tsne.rs:126-131 | slice `c` of the gradient tensor: entry `(i, j)` is `(y_jc - y_ic)` times `4 (p_ij - q_ij) / (1 + d_ij)` |
| Optimizer.Gradient | src/rust/tsne.rs:126-132 | an `N x 2` matrix whose column `c` is the row sums of slice `c` |
| Optimizer.ForcesAntisymmetric | src/rust/tsne.rs:126-131 | with symmetric `p`, `q` and `d`, every slice is antisymmetric |
| Optimizer.GradientBalanced | src/rust/tsne.rs:126-132 | with symmetric `p`, `q` and `d`, every gradient column sums to zero |
| Optimizer.Exaggerated | src/rust/tsne.rs:114-123 | the scheduled affinities keep the shape and symmetry of the computed ones |
| Optimizer.Rescaled | src/rust/tsne.rs:121-123 | the rescaling at the top of an iteration keeps the matrix square |
| Optimizer.ExaggerationUndone | src/rust/tsne.rs:115-122 | dividing by four restores exactly the matrix that was multiplied by four |
| Optimizer.ExaggerationSchedule | src/rust/tsne.rs:114-123 | the factor-of-four multiplication before the loop, together with the division at iteration 50, gives iteration `i` the affinities `Exaggerated` assigns it |
| Optimizer.ExaggerationPhases | src/rust/tsne.rs:114-123 | the affinities used at iteration `i` are four times the computed ones before 50 with exaggeration on, exactly the computed ones otherwise |
| Optimizer.Descend | src/rust/tsne.rs:124-133 | one step keeps the embedding and velocity `N x 2` |
| Optimizer.Run | src/rust/tsne.rs:120-133 | the loop as written, rescaling in place, keeps the embedding `N x 2` |
| Optimizer.Schedule | src/rust/tsne.rs:120-133 | the loop against the scheduled affinities keeps the embedding `N x 2` |
| Optimizer.RunFollowsSchedule | src/rust/tsne.rs:114-133 | the loop with in-place rescaling produces the same embedding as the clean exaggeration schedule |
| Optimizer.VelocityColumn | src/rust/tsne.rs:132 | a linear combination of a balanced gradient column and a balanced velocity column is balanced |
| Optimizer.MomentumKeepsCentroid | src/rust/tsne.rs:132-133 | with a balanced gradient and velocity, the new velocity is balanced and the move keeps the column sums of `y` |
| Optimizer.DescendKeepsCentroid | src/rust/tsne.rs:124-133 | one iteration with symmetric affinities keeps the velocity balanced and the centroid fixed |
| Optimizer.ScheduleKeepsCentroid | src/rust/tsne.rs:118-133 | any number of iterations from a balanced velocity keep the centroid |
| Optimizer.ZerosBalanced | src/rust/tsne.rs:118 | the zero initial velocity is balanced |
| Optimizer.FitSpec | src/rust/tsne.rs:105-147 | the embedding `fit` returns, as a function of its inputs and `y0`, is `N x 2` |
| Optimizer.Fit | src/rust/tsne.rs:105-147 | `fit` returns `FitSpec`, an `N x 2` matrix; zero iterations return `y0`; every run keeps the centroid of `y0` |

## Left out

- Floating-point rounding, NaN and infinity: the model computes over `real`.
- The values of `exp`, `log2` and `exp2` are not modelled. They are parameters. The model assumes that `exp` and `exp2` are positive. One lemma, `Affinity.PerplexityFloor`, also needs `exp2` to be non-decreasing.
- The random initial embedding (`Array::random` with a uniform distribution) is not modelled. `y0` is a parameter.
- The diagnostic printed every hundred iterations (lines 134-143) is not modelled. It is the sum of `p * (p / q)` with NaN quotients replaced by zero, has no logarithm, and affects only output.
- All `println!` output is left out, including the `break` message and "iter done".
- The Python bindings (`new_py`, `fit_py`) are not part of this model. `new_py` repeats the body of `new`, building the configuration itself. `fit_py` calls `fit` and converts the arrays.
- The package's `lib.rs` and Python entry point are not part of this model.
- Affinity.HighDimProb, Affinity.LowDimProb and Optimizer.Fit require at least two points. With a single point the kernel total is zero, and the code divides zero by zero. With no points the code works on empty arrays and `fit` returns an empty `0 x 2` embedding; the requirement excludes that case too, so the model does not promise this result.
- Affinity.LowDimProb requires non-negative distances. That holds for every matrix `cal_pairwise_dist` produces, and it keeps `1 + d` away from zero.
- BetaSearch.SearchBeta: the perplexity evaluations are recorded in a ghost output. The real output is `beta` only, as in the code.
- Optimizer.Fit: the matrices are values. The model does not capture the in-place updates of the `ndarray` buffers.
