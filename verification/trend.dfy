/** The penalty and objective helpers of the univariate trend model: the total-variation
    penalty `pen_tv`, the regularised objective `objective`, and `compute_X_and_objective`,
    which evaluates the objective after rescaling every atom of norm at least one to unit
    norm (and its activations by the inverse factor).

    Shapes: X, X_hat, trend and sample_weights are (n_trials, n_times), d_hat is
    (n_atoms, n_times_atom) and z_hat is (n_atoms, n_trials, n_times_valid). The
    reconstruction `construct_X_trend` and the penalty are parameters. */
module Trend {
  import opened Reals
  import opened Tensors
  import opened Buffers
  import opened Wrappers

  // ---------------------------------------------------------------- pen_tv

  /** The number of adjacent differences of a row of length n: `np.diff` gives n - 1 of
      them, and none for an empty row. */
  function DiffCount(n: nat): nat
  {
    if n == 0 then 0 else n - 1
  }

  /** |r[t+1] - r[t]| */
  function AbsDiff(r: Vec, t: int): real
  {
    Abs(At(r, t + 1) - At(r, t))
  }

  /** Σ_t |r[t+1] - r[t]| */
  function RowTv(r: Vec): (p: real)
    ensures p >= 0.0
  {
    SumNonneg(DiffCount(|r|), t => AbsDiff(r, t));
    Sum(DiffCount(|r|), t => AbsDiff(r, t))
  }

  /** The variation of row r of the trend, or nothing outside it. */
  function RowTvAt(trend: Mat, r: int): real
  {
    if 0 <= r < |trend| then RowTv(trend[r]) else 0.0
  }

  /** `pen_tv(trend)` = `np.sum(np.abs(np.diff(trend, axis=-1)))` */
  function PenTv(trend: Mat): (p: real)
    ensures p >= 0.0
  {
    SumNonneg(|trend|, r => RowTvAt(trend, r));
    Sum(|trend|, r => RowTvAt(trend, r))
  }

  /** Every entry of the row equals its first one. */
  predicate ConstantRow(r: Vec)
  {
    forall t :: 0 <= t < |r| ==> r[t] == r[0]
  }

  /** Equal neighbours up to t make every entry up to t equal to the first. */
  lemma {:induction false} NeighboursEqual(r: Vec, t: nat)
    requires t < |r|
    requires forall s :: 0 <= s < t ==> r[s + 1] == r[s]
    ensures r[t] == r[0]
  {
    if t > 0 {
      NeighboursEqual(r, t - 1);
    }
  }

  /** A row has no variation exactly when it is constant. */
  lemma RowTvZero(r: Vec)
    ensures RowTv(r) == 0.0 <==> ConstantRow(r)
  {
    var f := t => AbsDiff(r, t);
    if RowTv(r) == 0.0 {
      SumZeroTerms(DiffCount(|r|), f);
      forall t | 0 <= t < |r|
        ensures r[t] == r[0]
      {
        forall s | 0 <= s < t
          ensures r[s + 1] == r[s]
        {
          assert f(s) == 0.0;
        }
        NeighboursEqual(r, t);
      }
    }
    if ConstantRow(r) {
      forall t | 0 <= t < DiffCount(|r|)
        ensures f(t) == 0.0
      {
        assert r[t + 1] == r[0] && r[t] == r[0];
      }
      SumZero(DiffCount(|r|), f);
    }
  }

  /** `pen_tv` is non-negative, and zero exactly when every row of the trend is constant. */
  lemma PenTvZero(trend: Mat)
    ensures PenTv(trend) >= 0.0
    ensures PenTv(trend) == 0.0 <==> forall r :: 0 <= r < |trend| ==> ConstantRow(trend[r])
  {
    var f := r => RowTvAt(trend, r);
    if PenTv(trend) == 0.0 {
      SumZeroTerms(|trend|, f);
      forall r | 0 <= r < |trend|
        ensures ConstantRow(trend[r])
      {
        assert f(r) == 0.0;
        RowTvZero(trend[r]);
      }
    }
    if forall r :: 0 <= r < |trend| ==> ConstantRow(trend[r]) {
      forall r | 0 <= r < |trend|
        ensures f(r) == 0.0
      {
        RowTvZero(trend[r]);
      }
      SumZero(|trend|, f);
    }
  }

  /** Two rows of the same length with the same adjacent differences up to sign have the
      same variation. */
  lemma RowTvSameSteps(x: Vec, y: Vec)
    requires |x| == |y|
    requires forall t :: 0 <= t < |x| - 1 ==> Abs(x[t + 1] - x[t]) == Abs(y[t + 1] - y[t])
    ensures RowTv(x) == RowTv(y)
  {
    var f := t => AbsDiff(x, t);
    var g := t => AbsDiff(y, t);
    forall t | 0 <= t < DiffCount(|x|)
      ensures f(t) == g(t)
    {
      assert t < |x| - 1;
      assert f(t) == Abs(x[t + 1] - x[t]);
      assert g(t) == Abs(y[t + 1] - y[t]);
    }
    SumExt(DiffCount(|x|), f, g);
  }

  /** Two trends of the same shape whose rows have the same adjacent differences up to sign
      have the same penalty. */
  lemma PenTvSameSteps(a: Mat, b: Mat)
    requires |a| == |b|
    requires forall r :: 0 <= r < |a| ==> |a[r]| == |b[r]|
    requires forall r, t :: 0 <= r < |a| && 0 <= t < |a[r]| - 1 ==>
               Abs(a[r][t + 1] - a[r][t]) == Abs(b[r][t + 1] - b[r][t])
    ensures PenTv(a) == PenTv(b)
  {
    var f := r => RowTvAt(a, r);
    var g := r => RowTvAt(b, r);
    forall r | 0 <= r < |a|
      ensures f(r) == g(r)
    {
      RowTvSameSteps(a[r], b[r]);
    }
    SumExt(|a|, f, g);
  }

  /** The trend with the constant c[r] added to every entry of row r. */
  function ShiftRows(trend: Mat, c: Vec): (s: Mat)
    requires |c| == |trend|
    ensures |s| == |trend|
    ensures forall r :: 0 <= r < |trend| ==> |s[r]| == |trend[r]|
  {
    seq(|trend|, r requires 0 <= r < |trend| => seq(|trend[r]|, t requires 0 <= t < |trend[r]| => trend[r][t] + c[r]))
  }

  /** Adding a constant to each row does not change `pen_tv`. */
  lemma PenTvShift(trend: Mat, c: Vec)
    requires |c| == |trend|
    ensures PenTv(ShiftRows(trend, c)) == PenTv(trend)
  {
    var s := ShiftRows(trend, c);
    forall r, t | 0 <= r < |s| && 0 <= t < |s[r]| - 1
      ensures Abs(s[r][t + 1] - s[r][t]) == Abs(trend[r][t + 1] - trend[r][t])
    {
      assert s[r][t + 1] - s[r][t] == trend[r][t + 1] - trend[r][t];
    }
    PenTvSameSteps(s, trend);
  }

  /** The trend with every entry negated. */
  function Negated(trend: Mat): (n: Mat)
    ensures |n| == |trend|
    ensures forall r :: 0 <= r < |trend| ==> |n[r]| == |trend[r]|
  {
    seq(|trend|, r requires 0 <= r < |trend| => seq(|trend[r]|, t requires 0 <= t < |trend[r]| => -trend[r][t]))
  }

  /** Negating the trend does not change `pen_tv`. */
  lemma PenTvNegate(trend: Mat)
    ensures PenTv(Negated(trend)) == PenTv(trend)
  {
    var n := Negated(trend);
    forall r, t | 0 <= r < |n| && 0 <= t < |n[r]| - 1
      ensures Abs(n[r][t + 1] - n[r][t]) == Abs(trend[r][t + 1] - trend[r][t])
    {
      assert n[r][t + 1] - n[r][t] == -(trend[r][t + 1] - trend[r][t]);
    }
    PenTvSameSteps(n, trend);
  }

  // ------------------------------------------------------------- objective

  /** `X - X_hat`, in the shape of X. */
  function Residual(X: Mat, Xh: Mat): (R: Mat)
    ensures |R| == |X| && forall i :: 0 <= i < |X| ==> |R[i]| == |X[i]|
  {
    seq(|X|, i requires 0 <= i < |X| => seq(|X[i]|, t requires 0 <= t < |X[i]| => X[i][t] - At2(Xh, i, t)))
  }

  /** `residual *= np.sqrt(sample_weights)` */
  function Weighted(sqrt: real -> real, R: Mat, w: Mat): (W: Mat)
    ensures |W| == |R| && forall i :: 0 <= i < |R| ==> |W[i]| == |R[i]|
  {
    seq(|R|, i requires 0 <= i < |R| => seq(|R[i]|, t requires 0 <= t < |R[i]| => R[i][t] * sqrt(At2(w, i, t))))
  }

  /** Σ_i Σ_t R[i][t]², the squared Frobenius norm. */
  function FroSq(R: Mat): (s: real)
    ensures s >= 0.0
  {
    var f := i => if 0 <= i < |R| then SqNorm(R[i]) else 0.0;
    SumNonneg(|R|, f);
    Sum(|R|, f)
  }

  /** `z_hat.sum()`: Σ_k Σ_i Σ_s z[k][i][s] (a plain sum, not of absolute values). */
  function SumAll(z: T3): real
  {
    Sum(|z|, k => BlockSum(z, k))
  }

  /** Σ_i Σ_s z[k][i][s] */
  function BlockSum(z: T3, k: int): real
  {
    Sum(|Block(z, k)|, i => RowSum(z, k, i))
  }

  /** Σ_s z[k][i][s] */
  function RowSum(z: T3, k: int, i: int): real
  {
    Sum(|Row(z, k, i)|, s => At3(z, k, i, s))
  }

  /** z[k], or nothing outside z. */
  function Block(z: T3, k: int): Mat
  {
    if 0 <= k < |z| then z[k] else []
  }

  /** The residual the objective squares: `X - X_hat`, times `np.sqrt(sample_weights)` when
      weights are given. */
  function ObjResidual(sqrt: real -> real, X: Mat, Xh: Mat, weights: Option<Mat>): (R: Mat)
    ensures |R| == |X| && forall i :: 0 <= i < |X| ==> |R[i]| == |X[i]|
  {
    if weights.Some? then Weighted(sqrt, Residual(X, Xh), weights.value) else Residual(X, Xh)
  }

  /** `objective(X, X_hat, z_hat, trend, reg_z, reg_trend, pen_trend, sample_weights)`:
      ½ ‖residual‖²_F + reg_z Σ z + reg_trend · pen_trend(trend). */
  function Objective(sqrt: real -> real, X: Mat, Xh: Mat, z: T3, trend: Mat, regZ: real, regTrend: real,
                     pen: Mat -> real := PenTv, weights: Option<Mat> := None): (r: real)
    ensures r >= regZ * SumAll(z) + regTrend * pen(trend)
  {
    DataFit(sqrt, X, Xh, weights) + regZ * SumAll(z) + regTrend * pen(trend)
  }

  /** `0.5 * linalg.norm(residual, 'fro') ** 2` */
  function DataFit(sqrt: real -> real, X: Mat, Xh: Mat, weights: Option<Mat>): (r: real)
    ensures r >= 0.0
    ensures IsSqrt(sqrt) ==> r == 0.5 * FroSq(ObjResidual(sqrt, X, Xh, weights))
  {
    var norm := sqrt(FroSq(ObjResidual(sqrt, X, Xh, weights)));
    0.5 * (norm * norm)
  }

  /** X[i], or nothing outside X. */
  function Row2(X: Mat, i: int): Vec
  {
    if 0 <= i < |X| then X[i] else []
  }

  /** The weight of entry (i, t): w[i][t], or one without weights. */
  function WeightAt(weights: Option<Mat>, i: int, t: int): real
  {
    if weights.Some? then At2(weights.value, i, t) else 1.0
  }

  /** Σ_t w[i][t] (X[i][t] - X_hat[i][t])² over row i. */
  function RowSqError(X: Mat, Xh: Mat, weights: Option<Mat>, i: int): real
  {
    Sum(|Row2(X, i)|, t => WeightAt(weights, i, t) * ((At2(X, i, t) - At2(Xh, i, t)) * (At2(X, i, t) - At2(Xh, i, t))))
  }

  /** Σ_i Σ_t w[i][t] (X[i][t] - X_hat[i][t])², the weighted squared error; without weights
      it is the plain squared error. */
  function WeightedSqError(X: Mat, Xh: Mat, weights: Option<Mat>): real
  {
    Sum(|X|, i => RowSqError(X, Xh, weights, i))
  }

  /** The weights, when given, are non-negative wherever X has an entry. */
  predicate NonnegWeights(X: Mat, weights: Option<Mat>)
  {
    weights.Some? ==> forall i, t :: 0 <= i < |X| && 0 <= t < |X[i]| ==> At2(weights.value, i, t) >= 0.0
  }

  /** The square of one residual entry is the weighted squared error of that entry. */
  lemma ResidualEntrySquare(sqrt: real -> real, X: Mat, Xh: Mat, weights: Option<Mat>, i: nat, t: nat)
    requires IsSqrt(sqrt) && NonnegWeights(X, weights)
    requires i < |X| && t < |X[i]|
    ensures At(ObjResidual(sqrt, X, Xh, weights)[i], t) * At(ObjResidual(sqrt, X, Xh, weights)[i], t)
         == WeightAt(weights, i, t) * ((At2(X, i, t) - At2(Xh, i, t)) * (At2(X, i, t) - At2(Xh, i, t)))
  {
    var diff := X[i][t] - At2(Xh, i, t);
    if weights.Some? {
      var w := At2(weights.value, i, t);
      assert ObjResidual(sqrt, X, Xh, weights)[i][t] == diff * sqrt(w);
      SquareOfProduct(diff, sqrt(w));
    }
  }

  /** Row i of the residual contributes its row's weighted squared error. */
  lemma ResidualRowSquare(sqrt: real -> real, X: Mat, Xh: Mat, weights: Option<Mat>, i: nat)
    requires IsSqrt(sqrt) && NonnegWeights(X, weights)
    requires i < |X|
    ensures SqNorm(ObjResidual(sqrt, X, Xh, weights)[i]) == RowSqError(X, Xh, weights, i)
  {
    forall t | 0 <= t < |X[i]|
      ensures At(ObjResidual(sqrt, X, Xh, weights)[i], t) * At(ObjResidual(sqrt, X, Xh, weights)[i], t)
           == WeightAt(weights, i, t) * ((At2(X, i, t) - At2(Xh, i, t)) * (At2(X, i, t) - At2(Xh, i, t)))
    {
      ResidualEntrySquare(sqrt, X, Xh, weights, i, t);
    }
    SumExt(|X[i]|, s => At(ObjResidual(sqrt, X, Xh, weights)[i], s) * At(ObjResidual(sqrt, X, Xh, weights)[i], s),
           t => WeightAt(weights, i, t) * ((At2(X, i, t) - At2(Xh, i, t)) * (At2(X, i, t) - At2(Xh, i, t))));
  }

  /** The squared Frobenius norm of the residual is the weighted squared error. */
  lemma FroSqIsError(sqrt: real -> real, X: Mat, Xh: Mat, weights: Option<Mat>)
    requires IsSqrt(sqrt) && NonnegWeights(X, weights)
    ensures FroSq(ObjResidual(sqrt, X, Xh, weights)) == WeightedSqError(X, Xh, weights)
  {
    var R := ObjResidual(sqrt, X, Xh, weights);
    var f := i => if 0 <= i < |R| then SqNorm(R[i]) else 0.0;
    var g := i => RowSqError(X, Xh, weights, i);
    forall i | 0 <= i < |X|
      ensures f(i) == g(i)
    {
      ResidualRowSquare(sqrt, X, Xh, weights, i);
    }
    SumExt(|X|, f, g);
  }

  /** With non-negative weights, the objective is ½ Σ w (X - X_hat)² + reg_z Σ z
      + reg_trend · pen(trend): the square root of the weights is squared back, and the
      Frobenius norm is squared back to the sum of squares. Without weights every w is one. */
  lemma ObjectiveForm(sqrt: real -> real, X: Mat, Xh: Mat, z: T3, trend: Mat, regZ: real, regTrend: real,
                      pen: Mat -> real, weights: Option<Mat>)
    requires IsSqrt(sqrt) && NonnegWeights(X, weights)
    ensures Objective(sqrt, X, Xh, z, trend, regZ, regTrend, pen, weights)
         == 0.5 * WeightedSqError(X, Xh, weights) + regZ * SumAll(z) + regTrend * pen(trend)
  {
    var F := FroSq(ObjResidual(sqrt, X, Xh, weights));
    FroSqIsError(sqrt, X, Xh, weights);
    assert sqrt(F) * sqrt(F) == F;
  }

  /** A row of the residual of a perfect reconstruction has squared norm zero. */
  lemma PerfectRowSquare(sqrt: real -> real, X: Mat, weights: Option<Mat>, i: nat)
    requires i < |X|
    ensures SqNorm(ObjResidual(sqrt, X, X, weights)[i]) == 0.0
  {
    var r := ObjResidual(sqrt, X, X, weights)[i];
    forall t | 0 <= t < |r|
      ensures At(r, t) * At(r, t) == 0.0
    {
      assert r[t] == 0.0;
    }
    SumZero(|r|, t => At(r, t) * At(r, t));
  }

  /** The residual of a perfect reconstruction has squared Frobenius norm zero. */
  lemma PerfectFroSq(sqrt: real -> real, X: Mat, weights: Option<Mat>)
    ensures FroSq(ObjResidual(sqrt, X, X, weights)) == 0.0
  {
    var R := ObjResidual(sqrt, X, X, weights);
    forall i | 0 <= i < |R|
      ensures SqNorm(R[i]) == 0.0
    {
      PerfectRowSquare(sqrt, X, weights, i);
    }
    SumZero(|R|, i => if 0 <= i < |R| then SqNorm(R[i]) else 0.0);
  }

  /** A perfect reconstruction has no data-fit term, whatever the weights. */
  lemma PerfectDataFit(sqrt: real -> real, X: Mat, weights: Option<Mat>)
    requires IsSqrt(sqrt)
    ensures DataFit(sqrt, X, X, weights) == 0.0
  {
    PerfectFroSq(sqrt, X, weights);
    SqrtVersusOne(sqrt, 0.0);
  }

  /** A perfect reconstruction leaves only the penalties; with no trend penalty, only
      reg_z Σ z. This holds for any weights. */
  lemma ObjectivePerfectFit(sqrt: real -> real, X: Mat, z: T3, trend: Mat, regZ: real, regTrend: real,
                            pen: Mat -> real, weights: Option<Mat>)
    requires IsSqrt(sqrt)
    ensures Objective(sqrt, X, X, z, trend, regZ, regTrend, pen, weights) == regZ * SumAll(z) + regTrend * pen(trend)
    ensures regTrend * pen(trend) == 0.0 ==> Objective(sqrt, X, X, z, trend, regZ, regTrend, pen, weights) == regZ * SumAll(z)
  {
    PerfectDataFit(sqrt, X, weights);
  }

  // ------------------------------------------------ compute_X_and_objective

  /** `np.linalg.norm(d_hat, axis=1)`: the Euclidean norm of every atom. */
  function AtomNorms(sqrt: real -> real, d: Mat): (n: Vec)
    ensures |n| == |d|
  {
    seq(|d|, k requires 0 <= k < |d| => sqrt(SqNorm(d[k])))
  }

  /** `d_hat[mask] /= d_norm[mask][:, None]` with `mask = d_norm >= 1`. */
  function DividedRows(d: Mat, norms: Vec): (r: Mat)
    requires |norms| == |d|
    ensures |r| == |d| && forall k :: 0 <= k < |d| ==> |r[k]| == |d[k]|
  {
    seq(|d|, k requires 0 <= k < |d| =>
      if norms[k] >= 1.0 then seq(|d[k]|, t requires 0 <= t < |d[k]| => d[k][t] / norms[k]) else d[k])
  }

  /** `z_hat[mask] *= d_norm[mask][:, None, None]` with `mask = d_norm >= 1`. */
  function MultipliedBlocks(z: T3, norms: Vec): (r: T3)
    requires |norms| == |z|
    ensures |r| == |z|
    ensures forall k :: 0 <= k < |z| ==> |r[k]| == |z[k]| && forall i :: 0 <= i < |z[k]| ==> |r[k][i]| == |z[k][i]|
  {
    seq(|z|, k requires 0 <= k < |z| =>
      if norms[k] >= 1.0 then
        seq(|z[k]|, i requires 0 <= i < |z[k]| => seq(|z[k][i]|, s requires 0 <= s < |z[k][i]| => z[k][i][s] * norms[k]))
      else z[k])
  }

  /** The atoms after the feasible rescale. */
  function FeasibleD(sqrt: real -> real, d: Mat): (r: Mat)
    ensures |r| == |d| && forall k :: 0 <= k < |d| ==> |r[k]| == |d[k]|
  {
    DividedRows(d, AtomNorms(sqrt, d))
  }

  /** The activations after the feasible rescale. */
  function FeasibleZ(sqrt: real -> real, z: T3, d: Mat): (r: T3)
    requires |z| == |d|
    ensures |r| == |z| && forall k :: 0 <= k < |z| ==> |r[k]| == |z[k]|
  {
    MultipliedBlocks(z, AtomNorms(sqrt, d))
  }

  /** An atom of norm at least one ends with norm exactly one; a shorter atom is unchanged. */
  lemma FeasibleAtomNorm(sqrt: real -> real, d: Mat, k: nat)
    requires IsSqrt(sqrt)
    requires k < |d|
    ensures AtomNorms(sqrt, d)[k] >= 1.0 <==> SqNorm(d[k]) >= 1.0
    ensures SqNorm(d[k]) >= 1.0 ==> SqNorm(FeasibleD(sqrt, d)[k]) == 1.0
    ensures SqNorm(d[k]) < 1.0 ==> FeasibleD(sqrt, d)[k] == d[k]
  {
    var n := sqrt(SqNorm(d[k]));
    SqrtVersusOne(sqrt, SqNorm(d[k]));
    assert AtomNorms(sqrt, d)[k] == n;
    if n >= 1.0 {
      DividedIsScaled(d[k], FeasibleD(sqrt, d)[k], n);
      SqNormScaled(d[k], 1.0 / n);
      InverseSquare(n, SqNorm(d[k]));
    }
  }

  lemma InverseSquare(n: real, s: real)
    requires n > 0.0 && n * n == s
    ensures (1.0 / n) * (1.0 / n) * s == 1.0
  {
  }

  /** Dividing a row by n is scaling it by 1/n. */
  lemma DividedIsScaled(row: Vec, q: Vec, n: real)
    requires n != 0.0
    requires |q| == |row| && forall t :: 0 <= t < |row| ==> q[t] == row[t] / n
    ensures q == Scaled(row, 1.0 / n)
  {
    forall t | 0 <= t < |row|
      ensures q[t] == Scaled(row, 1.0 / n)[t]
    {
      assert row[t] / n == row[t] * (1.0 / n);
    }
  }

  /** One product d[k][t] · z[k][i][s] is unchanged by the feasible rescale. */
  lemma FeasibleProduct(sqrt: real -> real, z: T3, d: Mat, k: nat, t: nat, i: nat, s: nat)
    requires |z| == |d| && k < |d| && t < |d[k]| && i < |z[k]| && s < |z[k][i]|
    ensures FeasibleD(sqrt, d)[k][t] * FeasibleZ(sqrt, z, d)[k][i][s] == d[k][t] * z[k][i][s]
  {
    var n := AtomNorms(sqrt, d)[k];
    if n >= 1.0 {
      DivideTimesMultiply(FeasibleD(sqrt, d)[k][t], FeasibleZ(sqrt, z, d)[k][i][s], d[k][t], z[k][i][s], n);
    }
  }

  /** The feasible rescale keeps every product d[k][t] · z[k][i][s] that makes up the
      reconstruction, and leaves the activations of an atom of norm below one alone. */
  lemma FeasibleProducts(sqrt: real -> real, z: T3, d: Mat, k: nat)
    requires IsSqrt(sqrt)
    requires |z| == |d| && k < |d|
    ensures SqNorm(d[k]) < 1.0 ==> FeasibleZ(sqrt, z, d)[k] == z[k]
    ensures forall t, i, s :: 0 <= t < |d[k]| && 0 <= i < |z[k]| && 0 <= s < |z[k][i]| ==>
              FeasibleD(sqrt, d)[k][t] * FeasibleZ(sqrt, z, d)[k][i][s] == d[k][t] * z[k][i][s]
  {
    FeasibleAtomNorm(sqrt, d, k);
    forall t, i, s | 0 <= t < |d[k]| && 0 <= i < |z[k]| && 0 <= s < |z[k][i]|
      ensures FeasibleD(sqrt, d)[k][t] * FeasibleZ(sqrt, z, d)[k][i][s] == d[k][t] * z[k][i][s]
    {
      FeasibleProduct(sqrt, z, d, k, t, i, s);
    }
  }

  lemma DivideTimesMultiply(a: real, b: real, x: real, y: real, n: real)
    requires n != 0.0 && a == x / n && b == y * n
    ensures a * b == x * y
  {
  }

  /** X_hat is fixed before the activations change, so changing them moves the objective
      only through reg_z Σ z. */
  lemma ObjectiveShift(sqrt: real -> real, X: Mat, Xh: Mat, z: T3, z': T3, trend: Mat, regZ: real, regTrend: real,
                       pen: Mat -> real, weights: Option<Mat>)
    ensures Objective(sqrt, X, Xh, z', trend, regZ, regTrend, pen, weights)
         == Objective(sqrt, X, Xh, z, trend, regZ, regTrend, pen, weights) + regZ * (SumAll(z') - SumAll(z))
  {
  }

  /** With a non-negative `reg_z`, the objective grows with `z_hat.sum()`. */
  lemma ObjectiveMono(sqrt: real -> real, X: Mat, Xh: Mat, z: T3, z': T3, trend: Mat, regZ: real, regTrend: real,
                      pen: Mat -> real, weights: Option<Mat>)
    requires regZ >= 0.0 && SumAll(z) <= SumAll(z')
    ensures Objective(sqrt, X, Xh, z, trend, regZ, regTrend, pen, weights)
         <= Objective(sqrt, X, Xh, z', trend, regZ, regTrend, pen, weights)
  {
    ObjectiveShift(sqrt, X, Xh, z, z', trend, regZ, regTrend, pen, weights);
    ShiftMono(Objective(sqrt, X, Xh, z, trend, regZ, regTrend, pen, weights),
              Objective(sqrt, X, Xh, z', trend, regZ, regTrend, pen, weights), regZ, SumAll(z), SumAll(z'));
  }

  /** Every activation is non-negative, as the sparse coding step keeps them. */
  predicate NonnegCode(z: T3)
  {
    forall k, i, s :: 0 <= k < |z| && 0 <= i < |z[k]| && 0 <= s < |z[k][i]| ==> z[k][i][s] >= 0.0
  }

  /** Row i of block k grows (or stays) under the rescale of non-negative activations. */
  lemma FeasibleRowSum(sqrt: real -> real, z: T3, d: Mat, k: nat, i: nat)
    requires |z| == |d| && NonnegCode(z)
    requires k < |z| && i < |z[k]|
    ensures RowSum(z, k, i) <= RowSum(FeasibleZ(sqrt, z, d), k, i)
  {
    var z' := FeasibleZ(sqrt, z, d);
    var n := AtomNorms(sqrt, d)[k];
    forall s | 0 <= s < |z[k][i]|
      ensures At3(z, k, i, s) <= At3(z', k, i, s)
    {
      if n >= 1.0 {
        assert z'[k][i][s] == z[k][i][s] * n;
        assert z[k][i][s] * 1.0 <= z[k][i][s] * n;
      }
    }
    SumMono(|z[k][i]|, s => At3(z, k, i, s), s => At3(z', k, i, s));
  }

  /** Block k grows (or stays) under the rescale of non-negative activations. */
  lemma FeasibleBlockSum(sqrt: real -> real, z: T3, d: Mat, k: nat)
    requires |z| == |d| && NonnegCode(z)
    requires k < |z|
    ensures BlockSum(z, k) <= BlockSum(FeasibleZ(sqrt, z, d), k)
  {
    var z' := FeasibleZ(sqrt, z, d);
    forall i | 0 <= i < |z[k]|
      ensures RowSum(z, k, i) <= RowSum(z', k, i)
    {
      FeasibleRowSum(sqrt, z, d, k, i);
    }
    SumMono(|z[k]|, i => RowSum(z, k, i), i => RowSum(z', k, i));
  }

  /** The rescale of non-negative activations never lowers their sum. */
  lemma FeasibleSumAll(sqrt: real -> real, z: T3, d: Mat)
    requires |z| == |d| && NonnegCode(z)
    ensures SumAll(z) <= SumAll(FeasibleZ(sqrt, z, d))
  {
    var z' := FeasibleZ(sqrt, z, d);
    forall k | 0 <= k < |z|
      ensures BlockSum(z, k) <= BlockSum(z', k)
    {
      FeasibleBlockSum(sqrt, z, d, k);
    }
    SumMono(|z|, k => BlockSum(z, k), k => BlockSum(z', k));
  }

  /** X̂ is computed before the rescale, so the feasible evaluation differs from the plain
      one only in the activation penalty. */
  lemma FeasibleOnlyRegZ(sqrt: real -> real, X: Mat, Xh: Mat, z: T3, d: Mat, trend: Mat, regZ: real, regTrend: real,
                         pen: Mat -> real, weights: Option<Mat>)
    requires |z| == |d|
    ensures Objective(sqrt, X, Xh, FeasibleZ(sqrt, z, d), trend, regZ, regTrend, pen, weights)
         == Objective(sqrt, X, Xh, z, trend, regZ, regTrend, pen, weights)
            + regZ * (SumAll(FeasibleZ(sqrt, z, d)) - SumAll(z))
  {
    ObjectiveShift(sqrt, X, Xh, z, FeasibleZ(sqrt, z, d), trend, regZ, regTrend, pen, weights);
  }

  /** With non-negative activations and a non-negative `reg_z`, the feasible evaluation is never
      below the plain one. */
  lemma FeasibleNotBelow(sqrt: real -> real, X: Mat, Xh: Mat, z: T3, d: Mat, trend: Mat, regZ: real, regTrend: real,
                         pen: Mat -> real, weights: Option<Mat>)
    requires |z| == |d| && NonnegCode(z) && regZ >= 0.0
    ensures Objective(sqrt, X, Xh, z, trend, regZ, regTrend, pen, weights)
         <= Objective(sqrt, X, Xh, FeasibleZ(sqrt, z, d), trend, regZ, regTrend, pen, weights)
  {
    FeasibleSumAll(sqrt, z, d);
    ObjectiveMono(sqrt, X, Xh, z, FeasibleZ(sqrt, z, d), trend, regZ, regTrend, pen, weights);
  }

  lemma ShiftMono(a: real, b: real, c: real, x: real, y: real)
    requires b == a + c * (y - x) && c >= 0.0 && x <= y
    ensures a <= b
  {
    assert c * (y - x) >= 0.0 * (y - x);
  }

  /** `d_hat[k] /= c`, in place. */
  method DivideRow(a: array2<real>, k: nat, c: real)
    requires k < a.Length0 && c != 0.0
    modifies a
    ensures forall r, t :: 0 <= r < a.Length0 && 0 <= t < a.Length1 ==>
              a[r, t] == if r == k then old(a[r, t]) / c else old(a[r, t])
  {
    var t := 0;
    while t < a.Length1
      invariant 0 <= t <= a.Length1
      invariant forall r, u :: 0 <= r < a.Length0 && 0 <= u < a.Length1 ==>
                  a[r, u] == if r == k && u < t then old(a[r, u]) / c else old(a[r, u])
    {
      a[k, t] := a[k, t] / c;
      t := t + 1;
    }
  }

  /** `d_hat[mask] /= d_norm[mask][:, None]`, in place. */
  method DivideMaskedRows(a: array2<real>, norms: Vec)
    requires |norms| == a.Length0
    modifies a
    ensures Contents2(a) == DividedRows(old(Contents2(a)), norms)
  {
    ghost var before := Contents2(a);
    var k := 0;
    while k < a.Length0
      invariant 0 <= k <= a.Length0
      invariant forall r, t :: 0 <= r < a.Length0 && 0 <= t < a.Length1 ==>
                  a[r, t] == if r < k && norms[r] >= 1.0 then before[r][t] / norms[r] else before[r][t]
    {
      if norms[k] >= 1.0 {
        DivideRow(a, k, norms[k]);
      }
      k := k + 1;
    }
    ghost var want := DividedRows(before, norms);
    forall r | 0 <= r < a.Length0
      ensures Contents2(a)[r] == want[r]
    {
      assert forall t :: 0 <= t < a.Length1 ==> Contents2(a)[r][t] == want[r][t];
    }
  }

  /** `z_hat[k][i] *= c`, in place. */
  method MultiplyRow(a: array3<real>, k: nat, i: nat, c: real)
    requires k < a.Length0 && i < a.Length1
    modifies a
    ensures forall r, j, s :: 0 <= r < a.Length0 && 0 <= j < a.Length1 && 0 <= s < a.Length2 ==>
              a[r, j, s] == if r == k && j == i then old(a[r, j, s]) * c else old(a[r, j, s])
  {
    var s := 0;
    while s < a.Length2
      invariant 0 <= s <= a.Length2
      invariant forall r, j, u :: 0 <= r < a.Length0 && 0 <= j < a.Length1 && 0 <= u < a.Length2 ==>
                  a[r, j, u] == if r == k && j == i && u < s then old(a[r, j, u]) * c else old(a[r, j, u])
    {
      a[k, i, s] := a[k, i, s] * c;
      s := s + 1;
    }
  }

  /** `z_hat[k] *= c`, in place. */
  method MultiplyBlock(a: array3<real>, k: nat, c: real)
    requires k < a.Length0
    modifies a
    ensures forall r, j, s :: 0 <= r < a.Length0 && 0 <= j < a.Length1 && 0 <= s < a.Length2 ==>
              a[r, j, s] == if r == k then old(a[r, j, s]) * c else old(a[r, j, s])
  {
    var i := 0;
    while i < a.Length1
      invariant 0 <= i <= a.Length1
      invariant forall r, j, u :: 0 <= r < a.Length0 && 0 <= j < a.Length1 && 0 <= u < a.Length2 ==>
                  a[r, j, u] == if r == k && j < i then old(a[r, j, u]) * c else old(a[r, j, u])
    {
      MultiplyRow(a, k, i, c);
      i := i + 1;
    }
  }

  /** `z_hat[mask] *= d_norm[mask][:, None, None]`, in place. */
  method MultiplyMaskedBlocks(a: array3<real>, norms: Vec)
    requires |norms| == a.Length0
    modifies a
    ensures Contents3(a) == MultipliedBlocks(old(Contents3(a)), norms)
  {
    ghost var before := Contents3(a);
    var k := 0;
    while k < a.Length0
      invariant 0 <= k <= a.Length0
      invariant forall r, j, s :: 0 <= r < a.Length0 && 0 <= j < a.Length1 && 0 <= s < a.Length2 ==>
                  a[r, j, s] == if r < k && norms[r] >= 1.0 then before[r][j][s] * norms[r] else before[r][j][s]
    {
      if norms[k] >= 1.0 {
        MultiplyBlock(a, k, norms[k]);
      }
      k := k + 1;
    }
    ghost var want := MultipliedBlocks(before, norms);
    forall r | 0 <= r < a.Length0
      ensures Contents3(a)[r] == want[r]
    {
      forall j | 0 <= j < a.Length1
        ensures Contents3(a)[r][j] == want[r][j]
      {
        assert forall s :: 0 <= s < a.Length2 ==> Contents3(a)[r][j][s] == want[r][j][s];
      }
    }
  }

  /** The number of columns of a matrix, read off its first row. */
  function Cols(m: Mat): nat
  {
    if |m| > 0 then |m[0]| else 0
  }

  /** The trial and time sizes of z, read off its first block. */
  function Trials(z: T3): nat
  {
    if |z| > 0 then |z[0]| else 0
  }

  function Times(z: T3): nat
  {
    if |z| > 0 && |z[0]| > 0 then |z[0][0]| else 0
  }

  /** `compute_X_and_objective(X, z_hat, d_hat, trend, reg_z, reg_trend, pen_trend,
      sample_weights, feasible_evaluation)`: reconstruct from the given atoms and
      activations; with `feasible_evaluation`, rescale copies of them in place and score the
      rescaled activations against that same reconstruction. */
  method ComputeXAndObjective(sqrt: real -> real, reconstruct: (T3, Mat, Mat) -> Mat, X: Mat, z: T3, d: Mat, trend: Mat,
                              regZ: real, regTrend: real, pen: Mat -> real := PenTv, weights: Option<Mat> := None,
                              feasible: bool := true)
    returns (obj: real)
    requires IsMat(d, |d|, Cols(d)) && |z| == |d| && IsT3(z, |z|, Trials(z), Times(z))
    ensures obj == Objective(sqrt, X, reconstruct(z, d, trend), if feasible then FeasibleZ(sqrt, z, d) else z,
                             trend, regZ, regTrend, pen, weights)
  {
    var Xh := reconstruct(z, d, trend);
    if feasible {
      var zc := NewT3(z, |z|, Trials(z), Times(z));
      var dc := NewMat(d, |d|, Cols(d));
      var norms := AtomNorms(sqrt, d);
      DivideMaskedRows(dc, norms);
      MultiplyMaskedBlocks(zc, norms);
      obj := Objective(sqrt, X, Xh, Contents3(zc), trend, regZ, regTrend, pen, weights);
    } else {
      obj := Objective(sqrt, X, Xh, z, trend, regZ, regTrend, pen, weights);
    }
  }
}
