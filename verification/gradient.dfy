/** The gradient evaluator of the rank-1 dictionary update: the gradient of
    ½ Σ (X̂ - X)² with respect to the full atoms D, computed either directly from the
    residual (`_dense_transpose_convolve`) or from the cached sufficient statistics
    (`_gradient_d` with `constants`), and its chain rule onto the rank-1 parameters uv
    (`_gradient_uv`). */
module Gradient {
  import opened Reals
  import opened Tensors
  import opened Reconstruction
  import opened SuffStats
  import opened Wrappers

  /** The residual `construct_X_multi(Z, D) - X`. */
  function Residual(X: T3, Z: T3, D: T3, d: Dims): (R: T3)
    requires IsCode(Z, d)
    requires IsT3(X, d.nTrials, d.nChan, d.nTimes)
    requires IsT3(D, d.nAtoms, d.nChan, d.NTimesAtom())
    ensures IsT3(R, d.nTrials, d.nChan, d.nTimes)
  {
    Sub3(ConstructXMulti(Z, D, d), X, d.nTrials, d.nChan, d.nTimes)
  }

  /** The four-dimensional list of `_dense_transpose_convolve`: entry [k][i][p] is
      `convolve(residual[i][p], Z[k][i][::-1], mode='valid')`. */
  function TransposeTerms(Z: T3, R: T3, d: Dims): (A: T4)
    requires IsCode(Z, d)
    requires IsT3(R, d.nTrials, d.nChan, d.nTimes)
    ensures IsT4(A, d.nAtoms, d.nTrials, d.nChan, d.NTimesAtom())
  {
    seq(d.nAtoms, k requires 0 <= k < d.nAtoms => seq(d.nTrials, i requires 0 <= i < d.nTrials => seq(d.nChan, p requires 0 <= p < d.nChan =>
      ConvolveValid(R[i][p], Reverse(Z[k][i])))))
  }

  /** `_dense_transpose_convolve(Z, residual)`: the list summed over its trial axis. */
  function DenseTransposeConvolve(Z: T3, R: T3, d: Dims): (G: T3)
    requires IsCode(Z, d)
    requires IsT3(R, d.nTrials, d.nChan, d.nTimes)
    ensures IsT3(G, d.nAtoms, d.nChan, d.NTimesAtom())
  {
    SumAxis1(TransposeTerms(Z, R, d), d.nAtoms, d.nTrials, d.nChan, d.NTimesAtom())
  }

  /** The four-dimensional list of the cached path: entry [k][k2][p] is
      `convolve(ZtZ[k][k2], D[k2][p], mode='valid')`. */
  function CachedTerms(D: T3, c: Constants, d: Dims): (A: T4)
    requires d.Valid() && FitsDims(c, d)
    requires IsT3(D, d.nAtoms, d.nChan, d.NTimesAtom())
    ensures IsT4(A, d.nAtoms, d.nAtoms, d.nChan, d.NTimesAtom())
  {
    seq(d.nAtoms, k requires 0 <= k < d.nAtoms => seq(d.nAtoms, k2 requires 0 <= k2 < d.nAtoms => seq(d.nChan, p requires 0 <= p < d.nChan =>
      ConvolveValid(c.ZtZ[k][k2], D[k2][p]))))
  }

  /** `_gradient_d(D, constants=constants)`: the list summed over its second atom axis,
      minus ZtX. */
  function GradientDCached(D: T3, c: Constants, d: Dims): (G: T3)
    requires d.Valid() && FitsDims(c, d)
    requires IsT3(D, d.nAtoms, d.nChan, d.NTimesAtom())
    ensures IsT3(G, d.nAtoms, d.nChan, d.NTimesAtom())
  {
    var L := d.NTimesAtom();
    Sub3(SumAxis1(CachedTerms(D, c, d), d.nAtoms, d.nAtoms, d.nChan, L), c.ZtX, d.nAtoms, d.nChan, L)
  }

  /** `_gradient_d(D, X, Z)` without constants: the transposed convolution of the residual. */
  function GradientDDirect(D: T3, X: T3, Z: T3, d: Dims): (G: T3)
    requires IsCode(Z, d)
    requires IsT3(X, d.nTrials, d.nChan, d.nTimes)
    requires IsT3(D, d.nAtoms, d.nChan, d.NTimesAtom())
    ensures IsT3(G, d.nAtoms, d.nChan, d.NTimesAtom())
  {
    DenseTransposeConvolve(Z, Residual(X, Z, D, d), d)
  }

  /** The direct gradient is the trial-summed correlation of each code row with the residual:
      G[k][p][tau] = Σ_i Σ_s Z[k][i][s] · residual[i][p][s + tau]. */
  lemma DirectEntry(Z: T3, R: T3, d: Dims, k: nat, p: nat, tau: nat)
    requires IsCode(Z, d)
    requires IsT3(R, d.nTrials, d.nChan, d.nTimes)
    requires k < d.nAtoms && p < d.nChan && tau < d.NTimesAtom()
    ensures DenseTransposeConvolve(Z, R, d)[k][p][tau] == TrialXCorr(Z, R, k, p, tau, d.nTrials)
  {
    var A := TransposeTerms(Z, R, d);
    var f := i => XCorr(Row(Z, k, i), Row(R, i, p), tau);
    forall i | 0 <= i < d.nTrials
      ensures f(i) == A[k][i][p][tau]
    {
      ConvolveReversed(Z[k][i], R[i][p], tau);
    }
    SumAxis1At(A, d.nAtoms, d.nTrials, d.nChan, d.NTimesAtom(), k, p, tau, f);
  }

  /** The cached gradient entry: G[k][p][tau] = Σ_k2 (ZtZ[k][k2] ∗ D[k2][p])[tau] - ZtX[k][p][tau],
      the convolution read at its valid position tau. */
  lemma CachedEntry(D: T3, c: Constants, d: Dims, k: nat, p: nat, tau: nat)
    requires d.Valid() && FitsDims(c, d)
    requires IsT3(D, d.nAtoms, d.nChan, d.NTimesAtom())
    requires k < d.nAtoms && p < d.nChan && tau < d.NTimesAtom()
    ensures GradientDCached(D, c, d)[k][p][tau] ==
            Sum(d.nAtoms, k2 => ConvAt(Row(c.ZtZ, k, k2), Row(D, k2, p), tau)) - c.ZtX[k][p][tau]
  {
    var A := CachedTerms(D, c, d);
    var f := k2 => ConvAt(Row(c.ZtZ, k, k2), Row(D, k2, p), tau);
    forall k2 | 0 <= k2 < d.nAtoms
      ensures f(k2) == A[k][k2][p][tau]
    {
      assert Row(c.ZtZ, k, k2) == c.ZtZ[k][k2] && Row(D, k2, p) == D[k2][p];
    }
    SumAxis1At(A, d.nAtoms, d.nAtoms, d.nChan, d.NTimesAtom(), k, p, tau, f);
  }

  /** The fixed gradient entry (k, p, tau) of codes Z and atoms D, with the sizes the sums
      run over: the terms below are the products Z[k][i][s] · Z[k2][i][s + tau - j] · D[k2][p][j]
      that both gradient paths add up, in different orders. */
  datatype Cell = Cell(Z: T3, D: T3, k: int, p: int, tau: int, nTrials: nat, nValid: nat, nAtoms: nat, L: nat)

  function Term(q: Cell, i: int, s: int, k2: int, j: int): real
  {
    At3(q.Z, q.k, i, s) * (At3(q.Z, k2, i, s + q.tau - j) * At3(q.D, k2, q.p, j))
  }

  // The direct path sums over i, then s, then k2, then j.

  function OverJ(q: Cell, i: int, s: int, k2: int): real
  {
    Sum(q.L, j => Term(q, i, s, k2, j))
  }

  function OverK2J(q: Cell, i: int, s: int): real
  {
    Sum(q.nAtoms, k2 => OverJ(q, i, s, k2))
  }

  function OverSK2J(q: Cell, i: int): real
  {
    Sum(q.nValid, s => OverK2J(q, i, s))
  }

  // The cached path sums over k2, then j, then i, then s.

  function OverS(q: Cell, k2: int, j: int, i: int): real
  {
    Sum(q.nValid, s => Term(q, i, s, k2, j))
  }

  function OverIS(q: Cell, k2: int, j: int): real
  {
    Sum(q.nTrials, i => OverS(q, k2, j, i))
  }

  function OverJIS(q: Cell, k2: int): real
  {
    Sum(q.L, j => OverIS(q, k2, j))
  }

  // Orders met on the way from one to the other.

  function OverSJ(q: Cell, i: int, k2: int): real
  {
    Sum(q.nValid, s => OverJ(q, i, s, k2))
  }

  function OverJS(q: Cell, i: int, k2: int): real
  {
    Sum(q.L, j => OverS(q, k2, j, i))
  }

  /** For one trial: Σ_s Σ_k2 Σ_j = Σ_k2 Σ_j Σ_s. */
  lemma ReorderTrial(q: Cell, i: int)
    ensures OverSK2J(q, i) == Sum(q.nAtoms, k2 => OverJS(q, i, k2))
  {
    SumSwap(q.nValid, q.nAtoms, s => OverK2J(q, i, s), k2 => OverSJ(q, i, k2),
            s => (k2 => OverJ(q, i, s, k2)), k2 => (s => OverJ(q, i, s, k2)));
    forall k2 | 0 <= k2 < q.nAtoms
      ensures OverSJ(q, i, k2) == OverJS(q, i, k2)
    {
      SumSwap(q.nValid, q.L, s => OverJ(q, i, s, k2), j => OverS(q, k2, j, i),
              s => (j => Term(q, i, s, k2, j)), j => (s => Term(q, i, s, k2, j)));
    }
    SumExt(q.nAtoms, k2 => OverSJ(q, i, k2), k2 => OverJS(q, i, k2));
  }

  /** Σ_i Σ_s Σ_k2 Σ_j = Σ_k2 Σ_j Σ_i Σ_s. */
  lemma Reorder(q: Cell)
    ensures Sum(q.nTrials, i => OverSK2J(q, i)) == Sum(q.nAtoms, k2 => OverJIS(q, k2))
  {
    forall i | 0 <= i < q.nTrials
      ensures OverSK2J(q, i) == Sum(q.nAtoms, k2 => OverJS(q, i, k2))
    {
      ReorderTrial(q, i);
    }
    SumExt(q.nTrials, i => OverSK2J(q, i), i => Sum(q.nAtoms, k2 => OverJS(q, i, k2)));
    SumSwap(q.nTrials, q.nAtoms, i => Sum(q.nAtoms, k2 => OverJS(q, i, k2)), k2 => Sum(q.nTrials, i => OverJS(q, i, k2)),
            i => (k2 => OverJS(q, i, k2)), k2 => (i => OverJS(q, i, k2)));
    forall k2 | 0 <= k2 < q.nAtoms
      ensures Sum(q.nTrials, i => OverJS(q, i, k2)) == OverJIS(q, k2)
    {
      SumSwap(q.nTrials, q.L, i => OverJS(q, i, k2), j => OverIS(q, k2, j),
              i => (j => OverS(q, k2, j, i)), j => (i => OverS(q, k2, j, i)));
    }
    SumExt(q.nAtoms, k2 => Sum(q.nTrials, i => OverJS(q, i, k2)), k2 => OverJIS(q, k2));
  }

  /** Z[k][i][s] times one atom's share of X̂[i][p][s + tau], spread over the atom's taps. */
  lemma ShareTimesCode(q: Cell, i: int, s: int, k2: int)
    ensures At3(q.Z, q.k, i, s) * AtomShare(q.Z, q.D, q.L, k2, i, q.p, s + q.tau) == OverJ(q, i, s, k2)
  {
    var c, f := At3(q.Z, q.k, i, s), Taps(q.Z, q.D, k2, i, q.p, s + q.tau);
    TermsScaled(q, i, s, k2);
    SumExt(q.L, j => Term(q, i, s, k2, j), ScaledBy(c, f));
    SumScaledBy(q.L, c, f);
    AtomShareTaps(q.Z, q.D, q.L, k2, i, q.p, s + q.tau);
  }

  /** The terms of one atom's taps are those of its share, scaled by Z[k][i][s]. */
  lemma TermsScaled(q: Cell, i: int, s: int, k2: int)
    ensures forall j :: Term(q, i, s, k2, j) == ScaledBy(At3(q.Z, q.k, i, s), Taps(q.Z, q.D, k2, i, q.p, s + q.tau))(j)
  {
  }

  /** Every atom's share, scaled by Z[k][i][s]. */
  lemma SharesTimesCode(q: Cell, i: int, s: int)
    ensures forall k2 :: 0 <= k2 < q.nAtoms ==>
      OverJ(q, i, s, k2) == ScaledBy(At3(q.Z, q.k, i, s), Shares(q.Z, q.D, q.L, i, q.p, s + q.tau))(k2)
  {
    forall k2 | 0 <= k2 < q.nAtoms
      ensures OverJ(q, i, s, k2) == ScaledBy(At3(q.Z, q.k, i, s), Shares(q.Z, q.D, q.L, i, q.p, s + q.tau))(k2)
    {
      ShareTimesCode(q, i, s, k2);
    }
  }

  /** Z[k][i][s] · X̂[i][p][s + tau] in the direct order. */
  lemma CodeTimesXHat(q: Cell, i: int, s: int)
    ensures At3(q.Z, q.k, i, s) * XHatAt(q.Z, q.D, q.nAtoms, q.L, i, q.p, s + q.tau) == OverK2J(q, i, s)
  {
    var c, f := At3(q.Z, q.k, i, s), Shares(q.Z, q.D, q.L, i, q.p, s + q.tau);
    SharesTimesCode(q, i, s);
    SumExt(q.nAtoms, k2 => OverJ(q, i, s, k2), ScaledBy(c, f));
    SumScaledBy(q.nAtoms, c, f);
  }

  /** The direct path's trial-i term: Σ_s Z[k][i][s] · X̂[i][p][s + tau] in the direct order. */
  lemma DirectTrial(q: Cell, i: int)
    ensures Sum(q.nValid, s => At3(q.Z, q.k, i, s) * XHatAt(q.Z, q.D, q.nAtoms, q.L, i, q.p, s + q.tau)) == OverSK2J(q, i)
  {
    forall s | 0 <= s < q.nValid
      ensures At3(q.Z, q.k, i, s) * XHatAt(q.Z, q.D, q.nAtoms, q.L, i, q.p, s + q.tau) == OverK2J(q, i, s)
    {
      CodeTimesXHat(q, i, s);
    }
    SumExt(q.nValid, s => At3(q.Z, q.k, i, s) * XHatAt(q.Z, q.D, q.nAtoms, q.L, i, q.p, s + q.tau), s => OverK2J(q, i, s));
  }

  /** The entry (k, p, tau) of codes Z and atoms D with the sizes of d. */
  function CellAt(Z: T3, D: T3, d: Dims, k: int, p: int, tau: int): Cell
    requires d.Valid()
  {
    Cell(Z, D, k, p, tau, d.nTrials, d.nTimesValid, d.nAtoms, d.NTimesAtom())
  }

  /** One trial of one tap of the cached path: the correlation of code rows k and k2 at lag
      tau - j, scaled by D[k2][p][j]. */
  lemma TapTrial(q: Cell, k2: int, j: int, i: int)
    requires |Row(q.Z, q.k, i)| == q.nValid
    ensures OverS(q, k2, j, i) == At3(q.D, k2, q.p, j) * XCorr(Row(q.Z, q.k, i), Row(q.Z, k2, i), q.tau - j)
  {
    forall s | 0 <= s < q.nValid
      ensures Term(q, i, s, k2, j) == At3(q.D, k2, q.p, j) * (At(Row(q.Z, q.k, i), s) * At(Row(q.Z, k2, i), s + (q.tau - j)))
    {
      var a, b, c := At(Row(q.Z, q.k, i), s), At(Row(q.Z, k2, i), s + (q.tau - j)), At3(q.D, k2, q.p, j);
      assert At3(q.Z, q.k, i, s) == a && At3(q.Z, k2, i, s + q.tau - j) == b;
      assert a * (b * c) == c * (a * b);
    }
    SumScale(q.nValid, At3(q.D, k2, q.p, j), s => Lagged(Row(q.Z, q.k, i), Row(q.Z, k2, i), q.tau - j, s),
             s => Term(q, i, s, k2, j));
  }

  /** Every trial of one tap of the cached path. */
  lemma TapTrials(q: Cell, k2: int, j: int)
    requires forall i :: 0 <= i < q.nTrials ==> |Row(q.Z, q.k, i)| == q.nValid
    ensures forall i :: 0 <= i < q.nTrials ==>
      OverS(q, k2, j, i) == At3(q.D, k2, q.p, j) * XCorr(Row(q.Z, q.k, i), Row(q.Z, k2, i), q.tau - j)
  {
    forall i | 0 <= i < q.nTrials
      ensures OverS(q, k2, j, i) == At3(q.D, k2, q.p, j) * XCorr(Row(q.Z, q.k, i), Row(q.Z, k2, i), q.tau - j)
    {
      TapTrial(q, k2, j, i);
    }
  }

  /** The trials of one tap of the cached path, summed: D[k2][p][j] times the correlation of
      code rows k and k2 at lag tau - j, trial by trial. */
  lemma TrialsScaled(q: Cell, k2: int, j: int)
    requires forall i :: 0 <= i < q.nTrials ==> |Row(q.Z, q.k, i)| == q.nValid
    ensures OverIS(q, k2, j) == Sum(q.nTrials, ScaledBy(At3(q.D, k2, q.p, j), LagTerms(q.Z, q.k, k2, q.tau - j)))
  {
    TapTrials(q, k2, j);
    SumExt(q.nTrials, i => OverS(q, k2, j, i), ScaledBy(At3(q.D, k2, q.p, j), LagTerms(q.Z, q.k, k2, q.tau - j)));
  }

  /** One tap of the cached path: D[k2][p][j] · LagSum(k, k2, tau - j) in the cached order. */
  lemma LagTimesTap(q: Cell, k2: int, j: int)
    requires forall i :: 0 <= i < q.nTrials ==> |Row(q.Z, q.k, i)| == q.nValid
    ensures At3(q.D, k2, q.p, j) * LagSum(q.Z, q.k, k2, q.tau - j, q.nTrials) == OverIS(q, k2, j)
  {
    var c, terms := At3(q.D, k2, q.p, j), LagTerms(q.Z, q.k, k2, q.tau - j);
    TrialsScaled(q, k2, j);
    SumScaledBy(q.nTrials, c, terms);
    LagSumTerms(q.Z, q.k, k2, q.tau - j, q.nTrials);
    assert OverIS(q, k2, j) == c * Sum(q.nTrials, terms);
  }

  /** A convolution read at tau whose taps are the cached-order sums is their sum over taps. */
  lemma ConvOfLagRow(q: Cell, k2: int, big: Vec, small: Vec)
    requires |small| == q.L
    requires forall m :: 0 <= m < |small| ==> At(small, m) * At(big, q.tau + |small| - 1 - m) == OverIS(q, k2, m)
    ensures ConvAt(big, small, q.tau) == OverJIS(q, k2)
  {
    ConvAtTaps(big, small, q.tau, m => OverIS(q, k2, m));
  }

  /** The code rows of a cell of well-shaped codes are n_times_valid long. */
  lemma CellRows(Z: T3, D: T3, d: Dims, k: nat, p: nat, tau: nat)
    requires IsCode(Z, d) && k < d.nAtoms
    ensures var q := CellAt(Z, D, d, k, p, tau);
      forall i :: 0 <= i < q.nTrials ==> |Row(q.Z, q.k, i)| == q.nValid
  {
  }

  /** Tap m of the cached path's convolution: D[k2][p][m] times the entry of ZtZ[k][k2] it
      meets at tau, in the cached order. */
  lemma CachedTap(Z: T3, D: T3, d: Dims, k: nat, k2: nat, p: nat, tau: nat, m: nat)
    requires IsCode(Z, d)
    requires k < d.nAtoms && k2 < d.nAtoms && tau < d.NTimesAtom() && m < d.NTimesAtom()
    ensures At(Row(D, k2, p), m) * At(Row(ZtZOf(Z, d), k, k2), tau + d.NTimesAtom() - 1 - m)
         == OverIS(CellAt(Z, D, d, k, p, tau), k2, m)
  {
    var q := CellAt(Z, D, d, k, p, tau);
    assert q.Z == Z && q.D == D && q.k == k && q.p == p && q.tau - m == tau - m && q.nTrials == d.nTrials;
    ZtZTap(Z, d, k, k2, tau, m);
    CellRows(Z, D, d, k, p, tau);
    LagTimesTap(q, k2, m);
  }

  /** The entry of ZtZ[k][k2] that tap m of the cached convolution meets at tau is the
      trial-summed correlation at lag tau - m. */
  lemma ZtZTap(Z: T3, d: Dims, k: nat, k2: nat, tau: nat, m: nat)
    requires d.Valid()
    requires k < d.nAtoms && k2 < d.nAtoms && tau < d.NTimesAtom() && m < d.NTimesAtom()
    ensures At(Row(ZtZOf(Z, d), k, k2), tau + d.NTimesAtom() - 1 - m) == LagSum(Z, k, k2, tau - m, d.nTrials)
  {
    var L := d.NTimesAtom();
    var e := tau + L - 1 - m;
    assert e - (L - 1) == tau - m;
    ZtZOfEntry(Z, d, k, k2, e);
  }

  /** The cached path's convolution of ZtZ[k][k2] with D[k2][p], read at tau, in the cached order. */
  lemma CachedConv(Z: T3, D: T3, d: Dims, k: nat, k2: nat, p: nat, tau: nat)
    requires IsCode(Z, d)
    requires IsT3(D, d.nAtoms, d.nChan, d.NTimesAtom())
    requires k < d.nAtoms && k2 < d.nAtoms && p < d.nChan && tau < d.NTimesAtom()
    ensures ConvAt(Row(ZtZOf(Z, d), k, k2), Row(D, k2, p), tau) == OverJIS(CellAt(Z, D, d, k, p, tau), k2)
  {
    var q := CellAt(Z, D, d, k, p, tau);
    var big, small := Row(ZtZOf(Z, d), k, k2), Row(D, k2, p);
    assert |small| == q.L;
    forall m | 0 <= m < |small|
      ensures At(small, m) * At(big, q.tau + |small| - 1 - m) == OverIS(q, k2, m)
    {
      CachedTap(Z, D, d, k, k2, p, tau, m);
    }
    ConvOfLagRow(q, k2, big, small);
  }

  /** A row xr of the reconstruction, read at s + tau and scaled by Z[k][i][s]. */
  lemma XHatRowPointwise(Z: T3, D: T3, nAtoms: nat, L: nat, k: int, i: int, p: int, tau: int, xr: Vec)
    requires 0 <= tau && |Row(Z, k, i)| + tau <= |xr|
    requires forall t :: 0 <= t < |xr| ==> xr[t] == XHatAt(Z, D, nAtoms, L, i, p, t)
    ensures forall s :: 0 <= s < |Row(Z, k, i)| ==>
              Lagged(Row(Z, k, i), xr, tau, s) == At3(Z, k, i, s) * XHatAt(Z, D, nAtoms, L, i, p, s + tau)
  {
    forall s | 0 <= s < |Row(Z, k, i)|
      ensures Lagged(Row(Z, k, i), xr, tau, s) == At3(Z, k, i, s) * XHatAt(Z, D, nAtoms, L, i, p, s + tau)
    {
      assert At(Row(Z, k, i), s) == At3(Z, k, i, s) && At(xr, s + tau) == XHatAt(Z, D, nAtoms, L, i, p, s + tau);
    }
  }

  /** Correlating a code row with a row of the reconstruction. */
  lemma XHatRowCorr(Z: T3, D: T3, nAtoms: nat, L: nat, k: int, i: int, p: int, tau: int, xr: Vec)
    requires 0 <= tau && |Row(Z, k, i)| + tau <= |xr|
    requires forall t :: 0 <= t < |xr| ==> xr[t] == XHatAt(Z, D, nAtoms, L, i, p, t)
    ensures XCorr(Row(Z, k, i), xr, tau) == Sum(|Row(Z, k, i)|, s => At3(Z, k, i, s) * XHatAt(Z, D, nAtoms, L, i, p, s + tau))
  {
    assert XCorr(Row(Z, k, i), xr, tau) == Sum(|Row(Z, k, i)|, s => Lagged(Row(Z, k, i), xr, tau, s));
    XHatRowPointwise(Z, D, nAtoms, L, k, i, p, tau, xr);
    SumExt(|Row(Z, k, i)|, s => Lagged(Row(Z, k, i), xr, tau, s), s => At3(Z, k, i, s) * XHatAt(Z, D, nAtoms, L, i, p, s + tau));
  }

  /** The residual's correlation splits into the reconstruction's and the data's:
      Σ_i Σ_s Z[k][i][s] · (X̂ - X)[i][p][s + tau] = Σ_i Σ_s Z[k][i][s] · X̂[i][p][s + tau] - ZtX[k][p][tau]. */
  lemma ResidualSplit(X: T3, Z: T3, D: T3, d: Dims, k: nat, p: nat, tau: nat)
    requires IsCode(Z, d)
    requires IsT3(X, d.nTrials, d.nChan, d.nTimes)
    requires IsT3(D, d.nAtoms, d.nChan, d.NTimesAtom())
    requires k < d.nAtoms && p < d.nChan
    ensures TrialXCorr(Z, Residual(X, Z, D, d), k, p, tau, d.nTrials) ==
            TrialXCorr(Z, ConstructXMulti(Z, D, d), k, p, tau, d.nTrials) - TrialXCorr(Z, X, k, p, tau, d.nTrials)
  {
    var R, Xh := Residual(X, Z, D, d), ConstructXMulti(Z, D, d);
    forall i | 0 <= i < d.nTrials
      ensures XCorr(Row(Z, k, i), Row(R, i, p), tau) == XCorr(Row(Z, k, i), Row(Xh, i, p), tau) - XCorr(Row(Z, k, i), Row(X, i, p), tau)
    {
      assert Row(R, i, p) == R[i][p] && Row(Xh, i, p) == Xh[i][p] && Row(X, i, p) == X[i][p];
      XCorrSub(Row(Z, k, i), R[i][p], Xh[i][p], X[i][p], tau);
    }
    SumSub(d.nTrials, i => XCorr(Row(Z, k, i), Row(Xh, i, p), tau), i => XCorr(Row(Z, k, i), Row(X, i, p), tau),
           i => XCorr(Row(Z, k, i), Row(R, i, p), tau));
  }

  /** The reconstruction's side of the direct path, in the direct order. */
  lemma DirectSide(Z: T3, D: T3, d: Dims, k: nat, p: nat, tau: nat)
    requires IsCode(Z, d)
    requires IsT3(D, d.nAtoms, d.nChan, d.NTimesAtom())
    requires k < d.nAtoms && p < d.nChan && tau < d.NTimesAtom()
    ensures TrialXCorr(Z, ConstructXMulti(Z, D, d), k, p, tau, d.nTrials) ==
            Sum(d.nTrials, i => OverSK2J(CellAt(Z, D, d, k, p, tau), i))
  {
    var q, Xh, L := CellAt(Z, D, d, k, p, tau), ConstructXMulti(Z, D, d), d.NTimesAtom();
    forall i | 0 <= i < d.nTrials
      ensures XCorr(Row(Z, k, i), Row(Xh, i, p), tau) == OverSK2J(q, i)
    {
      assert Row(Xh, i, p) == Xh[i][p] && |Row(Z, k, i)| == d.nTimesValid;
      XHatRowCorr(Z, D, d.nAtoms, L, k, i, p, tau, Row(Xh, i, p));
      DirectTrial(q, i);
    }
    SumExt(d.nTrials, i => XCorr(Row(Z, k, i), Row(Xh, i, p), tau), i => OverSK2J(q, i));
  }

  /** The lag table's side of the cached path, in the cached order. */
  lemma CachedSide(Z: T3, D: T3, d: Dims, k: nat, p: nat, tau: nat)
    requires IsCode(Z, d)
    requires IsT3(D, d.nAtoms, d.nChan, d.NTimesAtom())
    requires k < d.nAtoms && p < d.nChan && tau < d.NTimesAtom()
    ensures Sum(d.nAtoms, k2 => ConvAt(Row(ZtZOf(Z, d), k, k2), Row(D, k2, p), tau)) ==
            Sum(d.nAtoms, k2 => OverJIS(CellAt(Z, D, d, k, p, tau), k2))
  {
    var q := CellAt(Z, D, d, k, p, tau);
    forall k2 | 0 <= k2 < d.nAtoms
      ensures ConvAt(Row(ZtZOf(Z, d), k, k2), Row(D, k2, p), tau) == OverJIS(q, k2)
    {
      CachedConv(Z, D, d, k, k2, p, tau);
    }
    SumExt(d.nAtoms, k2 => ConvAt(Row(ZtZOf(Z, d), k, k2), Row(D, k2, p), tau), k2 => OverJIS(q, k2));
  }

  /** The cached gradient equals the direct one, entry by entry, when the constants are those
      of the same X and Z. */
  lemma CachedEqualsDirectAt(X: T3, Z: T3, D: T3, k: nat, p: nat, tau: nat)
    requires WellShaped(X, Z)
    requires IsT3(D, |Z|, |X[0]|, DimsOf(X, Z).NTimesAtom())
    requires k < |Z| && p < |X[0]| && tau < DimsOf(X, Z).NTimesAtom()
    ensures GradientDCached(D, ConstantsOf(X, Z), DimsOf(X, Z))[k][p][tau] == GradientDDirect(D, X, Z, DimsOf(X, Z))[k][p][tau]
  {
    var d, c := DimsOf(X, Z), ConstantsOf(X, Z);
    var q := CellAt(Z, D, d, k, p, tau);
    CachedEntry(D, c, d, k, p, tau);
    CachedSide(Z, D, d, k, p, tau);
    ZtXEntry(X, Z, k, p, tau);
    DirectEntry(Z, Residual(X, Z, D, d), d, k, p, tau);
    ResidualSplit(X, Z, D, d, k, p, tau);
    DirectSide(Z, D, d, k, p, tau);
    Reorder(q);
  }

  /** `_gradient_d` gives the same gradient with or without the cached constants. */
  lemma CachedEqualsDirect(X: T3, Z: T3, D: T3)
    requires WellShaped(X, Z)
    requires IsT3(D, |Z|, |X[0]|, DimsOf(X, Z).NTimesAtom())
    ensures GradientDCached(D, ConstantsOf(X, Z), DimsOf(X, Z)) == GradientDDirect(D, X, Z, DimsOf(X, Z))
  {
    var d := DimsOf(X, Z);
    var G, H, L := GradientDCached(D, ConstantsOf(X, Z), d), GradientDDirect(D, X, Z, d), d.NTimesAtom();
    forall k | 0 <= k < d.nAtoms
      ensures G[k] == H[k]
    {
      forall p | 0 <= p < d.nChan
        ensures G[k][p] == H[k][p]
      {
        forall tau | 0 <= tau < L
          ensures G[k][p][tau] == H[k][p][tau]
        {
          CachedEqualsDirectAt(X, Z, D, k, p, tau);
        }
      }
    }
  }

  /** `_gradient_d(D, X, Z, constants)`: the cached path whenever constants are given, the
      direct path otherwise; without constants, X and Z are needed. */
  function GradientD(D: T3, X: Option<T3>, Z: Option<T3>, constants: Option<Constants>, d: Dims): (r: Result<T3, string>)
    requires d.Valid()
    requires IsT3(D, d.nAtoms, d.nChan, d.NTimesAtom())
    requires constants.Some? ==> FitsDims(constants.value, d)
    requires X.Some? ==> IsT3(X.value, d.nTrials, d.nChan, d.nTimes)
    requires Z.Some? ==> IsCode(Z.value, d)
    ensures r.Failure? <==> constants.None? && (X.None? || Z.None?)
    ensures r.Success? ==> IsT3(r.value, d.nAtoms, d.nChan, d.NTimesAtom())
  {
    if constants.Some? then Success(GradientDCached(D, constants.value, d))
    else if X.None? || Z.None? then Failure("X and Z are needed without constants")
    else Success(GradientDDirect(D, X.value, Z.value, d))
  }

  /** Column p < n_chan of row k of the chain rule: Σ_t grad_d[k][p][t] · v[k][t]. */
  function GradUAt(gD: T3, uv: Mat, nChan: nat, L: nat, k: int, p: int): real
  {
    Sum(L, t => At3(gD, k, p, t) * At2(uv, k, nChan + t))
  }

  /** Column n_chan + t of row k of the chain rule: Σ_p grad_d[k][p][t] · u[k][p]. */
  function GradVAt(gD: T3, uv: Mat, nChan: nat, k: int, t: int): real
  {
    Sum(nChan, p => At3(gD, k, p, t) * At2(uv, k, p))
  }

  /** The chain rule of `_gradient_uv`: `np.c_[grad_u, grad_v]` with
      grad_u = `(grad_d * uv[:, None, n_chan:]).sum(axis=2)` and
      grad_v = `(grad_d * uv[:, :n_chan, None]).sum(axis=1)`. */
  function ChainRule(gD: T3, uv: Mat, nChan: nat, L: nat): (G: Mat)
    requires IsUv(uv, |uv|, nChan, L)
    requires IsT3(gD, |uv|, nChan, L)
    ensures IsUv(G, |uv|, nChan, L)
    ensures forall k, p :: 0 <= k < |uv| && 0 <= p < nChan ==> G[k][p] == GradUAt(gD, uv, nChan, L, k, p)
    ensures forall k, t :: 0 <= k < |uv| && 0 <= t < L ==> G[k][nChan + t] == GradVAt(gD, uv, nChan, k, t)
  {
    seq(|uv|, k => seq(nChan + L, c => if c < nChan then GradUAt(gD, uv, nChan, L, k, c) else GradVAt(gD, uv, nChan, k, c - nChan)))
  }

  /** `_gradient_uv(uv, X, Z, constants)`: n_chan from the constants or from X, the full
      atoms of uv, their gradient, and the chain rule. */
  function GradientUv(uv: Mat, X: Option<T3>, Z: Option<T3>, constants: Option<Constants>, d: Dims): (r: Result<Mat, string>)
    requires d.Valid()
    requires IsUv(uv, d.nAtoms, d.nChan, d.NTimesAtom())
    requires constants.Some? ==> FitsDims(constants.value, d)
    requires X.Some? ==> IsT3(X.value, d.nTrials, d.nChan, d.nTimes)
    requires Z.Some? ==> IsCode(Z.value, d)
    ensures r.Failure? <==> constants.None? && (X.None? || Z.None?)
    ensures r.Success? ==> IsUv(r.value, d.nAtoms, d.nChan, d.NTimesAtom())
  {
    if constants.None? && (X.None? || Z.None?) then Failure("X and Z are needed without constants")
    else
      var nChan := if constants.Some? then constants.value.nChan else |X.value[0]|;
      var D := GetD(uv, nChan, d.NTimesAtom());
      var gD := GradientD(D, X, Z, constants, d);
      Success(ChainRule(gD.value, uv, nChan, d.NTimesAtom()))
  }

  /** The pairing of grad_d[k] with the change of the full atom u vᵀ of row k of uv in the
      direction w = (du, dv): Σ_p Σ_t grad_d[k][p][t] · (du[p] v[t] + u[p] dv[t]). */
  function AtomPairing(gD: T3, uv: Mat, nChan: nat, L: nat, k: int, w: Vec): real
  {
    Sum(nChan, p => Sum(L, t => At3(gD, k, p, t) * (At(w, p) * At2(uv, k, nChan + t) + At2(uv, k, p) * At(w, nChan + t))))
  }

  /** A dot product over a row of length nC + L, split after its first nC entries. */
  lemma DotSplit(r: Vec, w: Vec, nC: nat, L: nat)
    requires |r| == nC + L
    ensures Dot(r, w) == Sum(nC, s => At(r, s) * At(w, s)) + Sum(L, t => At(r, nC + t) * At(w, nC + t))
  {
    SumSplit(nC + L, nC, s => At(r, s) * At(w, s), t => At(r, nC + t) * At(w, nC + t));
  }

  /** The head of a row holding grad_u, paired with w. */
  lemma DotGradHead(r: Vec, gD: T3, uv: Mat, nChan: nat, L: nat, k: nat, w: Vec)
    requires nChan <= |r|
    requires forall p :: 0 <= p < nChan ==> r[p] == GradUAt(gD, uv, nChan, L, k, p)
    ensures Sum(nChan, s => At(r, s) * At(w, s)) == Sum(nChan, p => GradUAt(gD, uv, nChan, L, k, p) * At(w, p))
  {
    SumExt(nChan, s => At(r, s) * At(w, s), p => GradUAt(gD, uv, nChan, L, k, p) * At(w, p));
  }

  /** The tail of a row holding grad_v, paired with w. */
  lemma DotGradTail(r: Vec, gD: T3, uv: Mat, nChan: nat, L: nat, k: nat, w: Vec)
    requires |r| == nChan + L
    requires forall t :: 0 <= t < L ==> r[nChan + t] == GradVAt(gD, uv, nChan, k, t)
    ensures Sum(L, t => At(r, nChan + t) * At(w, nChan + t)) == Sum(L, t => GradVAt(gD, uv, nChan, k, t) * At(w, nChan + t))
  {
    forall t | 0 <= t < L
      ensures At(r, nChan + t) == GradVAt(gD, uv, nChan, k, t)
    {
      assert r[nChan + t] == GradVAt(gD, uv, nChan, k, t);
    }
    SumExt(L, t => At(r, nChan + t) * At(w, nChan + t), t => GradVAt(gD, uv, nChan, k, t) * At(w, nChan + t));
  }

  /** The u-part of the pairing, each grad_u entry scaled by du[p]. */
  lemma PairU(gD: T3, uv: Mat, nChan: nat, L: nat, k: int, w: Vec)
    ensures Sum(nChan, p => GradUAt(gD, uv, nChan, L, k, p) * At(w, p))
         == Sum(nChan, p => Sum(L, t => At3(gD, k, p, t) * At2(uv, k, nChan + t) * At(w, p)))
  {
    forall p | 0 <= p < nChan
      ensures GradUAt(gD, uv, nChan, L, k, p) * At(w, p) == Sum(L, t => At3(gD, k, p, t) * At2(uv, k, nChan + t) * At(w, p))
    {
      SumScale(L, At(w, p), t => At3(gD, k, p, t) * At2(uv, k, nChan + t), t => At3(gD, k, p, t) * At2(uv, k, nChan + t) * At(w, p));
    }
    SumExt(nChan, p => GradUAt(gD, uv, nChan, L, k, p) * At(w, p),
           p => Sum(L, t => At3(gD, k, p, t) * At2(uv, k, nChan + t) * At(w, p)));
  }

  /** Term (p, t) of the v-part of the pairing. */
  function VTerm(gD: T3, uv: Mat, nChan: nat, k: int, w: Vec, p: int, t: int): real
  {
    At3(gD, k, p, t) * At2(uv, k, p) * At(w, nChan + t)
  }

  /** Row p of the v-part: Σ_t VTerm(p, t). */
  function VRow(gD: T3, uv: Mat, nChan: nat, L: nat, k: int, w: Vec, p: int): real
  {
    Sum(L, t => VTerm(gD, uv, nChan, k, w, p, t))
  }

  /** Column t of the v-part: Σ_p VTerm(p, t). */
  function VColumn(gD: T3, uv: Mat, nChan: nat, k: int, w: Vec, t: int): real
  {
    Sum(nChan, p => VTerm(gD, uv, nChan, k, w, p, t))
  }

  /** The v-part of the pairing, each grad_v entry scaled by dv[t], summed by columns. */
  lemma PairVColumns(gD: T3, uv: Mat, nChan: nat, L: nat, k: int, w: Vec)
    ensures Sum(L, t => GradVAt(gD, uv, nChan, k, t) * At(w, nChan + t)) == Sum(L, t => VColumn(gD, uv, nChan, k, w, t))
  {
    forall t | 0 <= t < L
      ensures GradVAt(gD, uv, nChan, k, t) * At(w, nChan + t) == VColumn(gD, uv, nChan, k, w, t)
    {
      SumScale(nChan, At(w, nChan + t), p => At3(gD, k, p, t) * At2(uv, k, p), p => VTerm(gD, uv, nChan, k, w, p, t));
    }
    SumExt(L, t => GradVAt(gD, uv, nChan, k, t) * At(w, nChan + t), t => VColumn(gD, uv, nChan, k, w, t));
  }

  /** The v-part of the pairing, each grad_v entry scaled by dv[t] and summed by rows. */
  lemma PairV(gD: T3, uv: Mat, nChan: nat, L: nat, k: int, w: Vec)
    ensures Sum(L, t => GradVAt(gD, uv, nChan, k, t) * At(w, nChan + t)) == Sum(nChan, p => VRow(gD, uv, nChan, L, k, w, p))
  {
    PairVColumns(gD, uv, nChan, L, k, w);
    SumSwap(nChan, L, p => VRow(gD, uv, nChan, L, k, w, p), t => VColumn(gD, uv, nChan, k, w, t),
            p => (t => VTerm(gD, uv, nChan, k, w, p, t)), t => (p => VTerm(gD, uv, nChan, k, w, p, t)));
  }

  /** The two parts add up to the pairing. */
  lemma PairSum(gD: T3, uv: Mat, nChan: nat, L: nat, k: int, w: Vec)
    ensures Sum(nChan, p => Sum(L, t => At3(gD, k, p, t) * At2(uv, k, nChan + t) * At(w, p)))
          + Sum(nChan, p => VRow(gD, uv, nChan, L, k, w, p))
         == AtomPairing(gD, uv, nChan, L, k, w)
  {
    forall p | 0 <= p < nChan
      ensures Sum(L, t => At3(gD, k, p, t) * (At(w, p) * At2(uv, k, nChan + t) + At2(uv, k, p) * At(w, nChan + t)))
           == Sum(L, t => At3(gD, k, p, t) * At2(uv, k, nChan + t) * At(w, p)) + VRow(gD, uv, nChan, L, k, w, p)
    {
      forall t | 0 <= t < L
        ensures At3(gD, k, p, t) * (At(w, p) * At2(uv, k, nChan + t) + At2(uv, k, p) * At(w, nChan + t))
             == At3(gD, k, p, t) * At2(uv, k, nChan + t) * At(w, p) + VTerm(gD, uv, nChan, k, w, p, t)
      {
        Distribute(At3(gD, k, p, t), At2(uv, k, p), At2(uv, k, nChan + t), At(w, p), At(w, nChan + t));
      }
      SumAdd(L, t => At3(gD, k, p, t) * At2(uv, k, nChan + t) * At(w, p), t => VTerm(gD, uv, nChan, k, w, p, t),
             t => At3(gD, k, p, t) * (At(w, p) * At2(uv, k, nChan + t) + At2(uv, k, p) * At(w, nChan + t)));
    }
    SumAdd(nChan, p => Sum(L, t => At3(gD, k, p, t) * At2(uv, k, nChan + t) * At(w, p)),
           p => VRow(gD, uv, nChan, L, k, w, p),
           p => Sum(L, t => At3(gD, k, p, t) * (At(w, p) * At2(uv, k, nChan + t) + At2(uv, k, p) * At(w, nChan + t))));
  }

  lemma Distribute(a: real, u: real, v: real, du: real, dv: real)
    ensures a * (du * v + u * dv) == a * v * du + a * u * dv
  {
  }

  /** The chain rule is the adjoint of the derivative of (u, v) ↦ u vᵀ: pairing row k of the
      uv gradient with any direction w equals pairing grad_d[k] with the change of the atom. */
  lemma ChainRuleAdjoint(gD: T3, uv: Mat, nChan: nat, L: nat, k: nat, w: Vec)
    requires IsUv(uv, |uv|, nChan, L)
    requires IsT3(gD, |uv|, nChan, L)
    requires k < |uv| && |w| == nChan + L
    ensures Dot(ChainRule(gD, uv, nChan, L)[k], w) == AtomPairing(gD, uv, nChan, L, k, w)
  {
    DotSplit(ChainRule(gD, uv, nChan, L)[k], w, nChan, L);
    DotGradHead(ChainRule(gD, uv, nChan, L)[k], gD, uv, nChan, L, k, w);
    DotGradTail(ChainRule(gD, uv, nChan, L)[k], gD, uv, nChan, L, k, w);
    PairU(gD, uv, nChan, L, k, w);
    PairV(gD, uv, nChan, L, k, w);
    PairSum(gD, uv, nChan, L, k, w);
  }

  /** With the constants of (X, Z), `_gradient_uv` needs neither X nor Z, and returns what the
      direct path computes from X and Z. */
  lemma GradientUvCachedEqualsDirect(uv: Mat, X: T3, Z: T3, Xo: Option<T3>, Zo: Option<T3>)
    requires WellShaped(X, Z)
    requires IsUv(uv, |Z|, |X[0]|, DimsOf(X, Z).NTimesAtom())
    requires Xo.Some? ==> IsT3(Xo.value, |Z[0]|, |X[0]|, |X[0][0]|)
    requires Zo.Some? ==> IsCode(Zo.value, DimsOf(X, Z))
    ensures GradientUv(uv, Xo, Zo, Some(ConstantsOf(X, Z)), DimsOf(X, Z))
         == GradientUv(uv, Some(X), Some(Z), None, DimsOf(X, Z))
    ensures GradientUv(uv, Some(X), Some(Z), None, DimsOf(X, Z)).Success?
  {
    var d := DimsOf(X, Z);
    CachedEqualsDirect(X, Z, GetD(uv, d.nChan, d.NTimesAtom()));
  }
}
